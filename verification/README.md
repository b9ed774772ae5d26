# SOCKS handshake: client, reference server, and the bytes between them

A Dafny model of the protocol engine of Boost.SOCKS, with proofs. It covers

- the SOCKS5 client (RFC 1928, RFC 1929) in its two implementations, straight-line blocking calls and a
  resumable coroutine, and the SOCKS4 client, likewise twice;
- the encoders and parsers of both sides, as loops over a buffer and as functions on octet sequences;
- the asynchronous reference server: its read conditions, its handlers, its two relay loops;
- composed reads and writes over streams that may cut data anywhere and fail anywhere;
- client and server as two processes over two FIFO channels, in every interleaving.

An octet is a number below 256, a port one below 65536; shifts on 16 and 32 bits are written out with their
truncation. An error code is success, end of file, another stream error, or a code of the library's own.

## How the pieces fit

| file | content |
|---|---|
| `Octets.dfy`, `Wire.dfy` | values; every message as a function, every parser as a function |
| `RoundTrips.dfy`, `Formats.dfy` | encoders of one side against parsers of the other; the messages field by field, the parsers as exact inverses |
| `Transport.dfy` | completion conditions, the composed-read loop, where each message ends a read, the stream object |
| `ClientCodec.dfy`, `Client.dfy`, `ConnectOp.dfy`, `ClientV4.dfy` | the client on one reused buffer, blocking and as a coroutine object |
| `ClientTheorems.dfy`, `ClientRuns.dfy`, `ClientRefinement.dfy` | whole runs of the client; its runs octet by octet; that each is a run of the other |
| `Diagnosis.dfy` | every outcome of the client, told from the octets of the stream |
| `Server.dfy`, `SocksConnection.dfy`, `Relay.dfy` | the server's transitions, the server object, the relay loops |
| `ServerReads.dfy`, `ServerRuns.dfy`, `ServerAnswers.dfy` | client messages through server reads; server runs octet by octet; what the server answers |
| `Handshake.dfy`, `FaultFree.dfy`, `Overtaken.dfy` | both ends together: agreement, termination, progress, and a run in which the relay overtakes the client |
| `HandshakeV4.dfy`, `FaultFreeV4.dfy` | both ends of SOCKS4 together: agreement, termination, outcome |

The imperative members (buffers, `Stream`, `ConnectOp`, `ConnectV4Op`, `SocksConnection`) are proved equal to
functions of what the stream does (`Client.Run`, `ClientV4.RunV4`, `Server.OnData`, `Relay.OnWritten` and so on).
The theorems about whole runs are about those functions. The theorems about interleavings are about steps octet by
octet: the server's use the same functions (`ServerRuns.Next`), and the client's (`ClientRuns.Next`) are proved to
come to exactly the outcomes of `Client.Run` (`ClientRefinement.RunIsDone`, `ClientRefinement.DoneIsRun`).

## Where the code differs from its documentation or from the RFCs

The model follows the code. Each difference has its exact condition:

- PWLEN is the length of the user name (`RoundTrips.UserpassAsWritten`, `RoundTrips.UserpassRoundTripExactly`).
- The server reads the password one octet early (same lemmas).
- The server's user/pass read ends by itself only when all 513 octets of its buffer are in
  (`ServerReads.UserpassReadOutcome`). So a handshake with credentials can come to completion only if user name
  and password both have 255 octets, and otherwise both ends wait for ever (`FaultFree.HandshakeCompletes`).
- The SOCKS4 client takes the address of a reply one octet early (`RoundTrips.ReplyV4RoundTripExactly`).
- The server refuses a SOCKS4 request whose first octet arrives alone (`ServerReads.RequestV4Read`).
- The relay loops drop what a short write did not take (`Relay.RelayConserves`).
- The two client forms treat the reply to the credentials differently (`ClientTheorems.FormsAgreeExactly` says when,
  `Diagnosis.FormsPart` says how: only the coroutine goes on after end of file).
- The server takes in what a client sends ahead of its answers, if it arrives with a message whose length is not
  known yet, and then refuses the message (`ServerReads.GreetingReadByCut`, `ServerReads.ConnectReadByCut`).
- The length octet of a domain wraps at 256 (`RoundTrips.RequestRoundTrip`, `ServerReads.ConnectRead`).
- The read of a reply looks for its end only between arrivals. If one goes on behind an IPv4 reply, the read
  takes in up to twelve octets of relayed data. With one to eleven of them the client waits for more, although the
  server has connected; at twelve, or at end of file, it reports a reply of the wrong size. It never succeeds
  with octets lost. `ClientTheorems.SuccessByCut` and `ClientTheorems.SuccessExactly` say which cuts of the data
  succeed, `FaultFree.HandshakeCompletes` which interleavings; `ClientTheorems.ReplyTakenTooFar` and
  `Overtaken.ReplyOvertaken` show such runs.

## Model

| member | source | states |
|---|---|---|
| Handshake.EndToEndAgreement | include/boost/socks/impl/connect.hpp:322-445 | In every interleaving, cut and fault, a client of either form that finishes with success agrees with the server: the server dialled the requested endpoint or the resolver's answer for the requested domain, had connected, and the client holds the local endpoint of that connection; all that is unread is relayed data. |
| Handshake.StepKeepsInv | example/server/async/socks_server_async.cpp:79-226 | Every move of either end keeps the joint invariant of both machines and both channels. |
| Handshake.GreetingHeard | example/server/async/socks_server_async.cpp:160-204 | A server that has accepted a greeting off the channel has read exactly the client's, and chosen the client's own method. |
| Handshake.ServerSpeaks | example/server/async/socks_server_async.cpp:206-330 | More than two octets from the server mean a choice of 0 or 2, and either a piece of the preamble of that method or the preamble and an honest CONNECT reply. |
| Handshake.ReplyIsServers | include/boost/socks/impl/connect.ipp:218-287 | A granted reply recognised at some place in the server's octets is the whole reply the server sent, with its endpoint. |
| FaultFree.HandshakeCompletes | include/boost/socks/impl/connect.hpp:322-445 | In every run without I/O errors, the server relaying at any time it may: the client completes only without credentials or with 255 and 255 octets of them, and after the target has answered or the lookup has failed, with the outcome of the server's attempt to connect or, having taken in twelve relayed octets behind an IPv4 reply, with a reply of the wrong size. When the handshake can go no further, the former has come about iff the credentials are such and no read took in relayed octets with the end of the reply; with such credentials it is otherwise the latter, or the client waits with one to eleven octets too many. |
| FaultFree.RunsEnd | example/server/async/socks_server_async.cpp:68-390 | In every run without I/O errors the moves other than those of the relay loops number at most a bound given by the client's messages, for every target and however much is relayed. |
| FaultFree.NeverStuck | example/server/async/socks_server_async.cpp:340-378 | Before the client is complete one end can go on, unless the client holds an IPv4 reply with one to eleven relayed octets. |
| FaultFree.ReadEndsWhole | example/server/async/socks_server_async.cpp:79-130 | Each read of the server ends with the client's whole message and with no piece of it; the user/pass read only with one of 513 octets. |
| FaultFree.StepOnCourse | example/server/async/socks_server_async.cpp:391-659 | Every move without an error, relaying included, keeps this: the server has read nothing but the client's whole messages and accepted each; the client stops at nothing but the CONNECT reply, or at 22 octets from the start of an IPv4 one. |
| FaultFree.RunMerged | include/boost/socks/impl/connect.hpp:248-264 | The client holds relayed octets before it is done iff one read of the run took in such octets with the end of the reply. |
| FaultFree.RunDecided | example/server/async/socks_server_async.cpp:515-637 | The server holds the request decided only after the target has answered or the lookup has failed, and counts as connected iff the target's last answer was yes. |
| FaultFree.Standstill | include/boost/socks/impl/connect.hpp:256-260 | A client that holds an IPv4 reply and one to eleven relayed octets, or has refused it at twelve, leaves no move but the relay's. |
| Overtaken.ReplyOvertaken | example/server/async/socks_server_async.cpp:716-729 | For every one to twelve octets the target sends first, a run without errors in which the server has connected and told so, and the client nevertheless stands still with the octets, or has refused the reply. |
| ClientTheorems.FormsAgreeExactly | include/boost/socks/impl/connect.hpp:322-445 | Coroutine and blocking form agree on result, endpoint, octets written and octets left iff the read of the user/pass reply, if reached, ended without error, or at end of file without an accepting reply, or with another error that the verdict on the reply does not replace. |
| ClientTheorems.UserpassReadForms | include/boost/socks/impl/connect.hpp:199-205 | Both agreements from the read of the user/pass reply on. |
| ClientTheorems.FormsAgreeButForCode | include/boost/socks/impl/connect.hpp:155-208 | Over whole runs, even where the error codes of the two forms differ, octets written and left, endpoint and success agree unless the user/pass reply accepts together with end of file. |
| ClientTheorems.FormsDiffer | include/boost/socks/impl/connect.hpp:388-391 | A stream on which the two forms differ. |
| Diagnosis.FormsPart | include/boost/socks/impl/connect.hpp:203-205 | In every whole run that comes to the read of the user/pass reply: after end of file with an accepting reply the blocking form reports end of file and the coroutine sends CONNECT; at another error the blocking form reports it, the coroutine what is wrong with the octets received, by code, or else the error; in all other cases both do the same, told by code. |
| Diagnosis.Diagnosed | include/boost/socks/impl/connect.hpp:322-445 | Every outcome of both forms on every error-free stream: error code, endpoint and messages sent are those of a reference that looks at the octets alone and at whether an arrival ends with an IPv4 reply. |
| Diagnosis.RefusalReported | include/boost/socks/detail/impl/reply_code.ipp:17-40 | For every cut of preamble and refusal the client reports the code 1 to 8 it was told, and 0xFF for any other. |
| Diagnosis.ChoiceDecides | include/boost/socks/impl/connect.hpp:166-187 | Whatever the stream does to the greeting and the choice: a failed write or read is reported as it is, then size, version and method by code, then end of file; only an offered choice leads on, to the message it demands. |
| Diagnosis.CredentialsDecide | include/boost/socks/impl/connect.hpp:377-391 | The same for the credentials, form by form. |
| Diagnosis.RequestDecides | include/boost/socks/impl/connect.hpp:409-437 | The same for the request and the reply, which counts even if the stream ends with it. |
| Diagnosis.ReplyRead | include/boost/socks/impl/connect.hpp:248-264 | What the reply read takes of any octets: ten if ATYP is IPv4 and an arrival ends with them, else as many of 22 as there are. |
| ClientTheorems.SuccessConsumesExactly | include/boost/socks/impl/connect.hpp:248-301 | For every stream, cut and tail, success consumes the choice, the user/pass reply if chosen, and the 10 or 22 octets of a granted reply, nothing more, and hands over exactly the messages of a complete run. |
| ClientTheorems.SucceedsForEveryCut | include/boost/socks/impl/connect.hpp:500-524 | The messages of a granting server make the client succeed however they are cut, with the endpoint of the reply, and what follows stays unread. |
| ClientTheorems.SuccessByCut | include/boost/socks/impl/connect.hpp:248-301 | On an error-free stream of a granting server's messages and any tail, the client succeeds and leaves the tail iff the reply is one of IPv6 or an arrival ends with it; otherwise it reports a reply of the wrong size. |
| ClientTheorems.ReplyReadByCut | include/boost/socks/impl/connect.hpp:256-260 | The reply read stops behind an IPv4 reply iff an arrival ends there, and takes in more otherwise. |
| ClientTheorems.ReplyTakenTooFar | include/boost/socks/impl/connect.hpp:293-298 | A granted reply that arrives with one octet of relayed data is refused for its size. |
| ClientTheorems.SuccessExactly | include/boost/socks/impl/connect.hpp:349-443 | For every error-free stream and its cut: the client succeeds iff the octets begin with an offered choice, an accepting status if 2 was chosen, and a granted reply, with which an arrival ends if it is one of IPv4. |
| ClientTheorems.SuccessCharacterised | include/boost/socks/impl/connect.hpp:349-443 | The client succeeds for every cut of an error-free stream iff the octets are an offered choice, an accepting status if 2 was chosen, and a granted reply with nothing behind an IPv4 one. |
| ClientTheorems.FailureReturnsDefault | include/boost/socks/impl/connect.hpp:276-297 | Every failing run, from whatever place, returns the default endpoint. |
| ClientRuns.ClientRunSafety | include/boost/socks/impl/connect.hpp:155-301 | In every run octet by octet, with errors anywhere: what was written is a prefix of the messages of a complete run; credentials only after a choice of 2, CONNECT only after 0 or after 2 and an accepting status; success only after a whole preamble and a granted reply. |
| ClientRuns.DataKeepsInv | include/boost/socks/impl/connect.hpp:349-437 | Every arrival of data or an error keeps the client's invariant. |
| ClientRuns.OutKeepsInv | include/boost/socks/impl/connect.hpp:331-421 | Every write of a piece, or failure to write, keeps it. |
| ClientRefinement.RunIsDone | include/boost/socks/impl/connect.hpp:322-445 | Every whole run of the client is a run octet by octet with the same result, octets written, messages begun and octets consumed. |
| ClientRefinement.DoneIsRun | include/boost/socks/impl/connect.hpp:322-445 | Every finished run octet by octet, with pieces and errors anywhere, is the whole run over some stream. |
| ClientRefinement.HandsOverInOrder | include/boost/socks/impl/connect.hpp:167-246 | A whole run, whatever fails, hands over the first messages of a complete run in order, each its encoder's output, and what goes out is a prefix of them. |
| Client.SendCredentials | include/boost/socks/impl/connect.hpp:188-206 | Ends the run with its error, or leaves it where CONNECT is to be written, as `Diagnosis.CredentialsDecide` says of the blocking form. |
| Client.Authenticate | include/boost/socks/impl/connect.hpp:155-208 | The same for greeting, choice and credentials together, on the reused buffer. |
| Client.WriteConnectRequest | include/boost/socks/impl/connect.hpp:210-246 | Hands over the request's encoding and nothing else. |
| Client.ReadConnectReply | include/boost/socks/impl/connect.hpp:267-301 | Result and remaining stream are those of the composed read and the decoding of what it received in this read. |
| Client.Connect | include/boost/socks/impl/connect.hpp:500-552 | The blocking form on one buffer of 513 octets refines the run function on every stream; no index leaves the buffer. |
| ConnectOps.ConnectOp.constructor | include/boost/socks/impl/connect.hpp:308-338 | Up to its first suspension the coroutine holds the greeting in its buffer. |
| ConnectOps.ConnectOp.OnWritten | include/boost/socks/impl/connect.hpp:339-410 | Resuming after a write leads to the place the run function names. |
| ConnectOps.ConnectOp.OnRead | include/boost/socks/impl/connect.hpp:354-437 | Resuming after a read decides on the octets of this read alone, as `Diagnosis` says of the coroutine, and leaves the next message in the buffer. |
| ConnectOps.ConnectOp.Drive | include/boost/socks/impl/connect.hpp:322-445 | The coroutine, resumed with each outcome, refines the run function on every stream. |
| ConnectOps.AsyncConnect | include/boost/socks/impl/connect.hpp:455-495 | The initiating function does so from a fresh operation. |
| ClientV4.ConnectV4 | include/boost/socks/impl/connect_v4.hpp:145-200 | The blocking SOCKS4 client refines its run function on every stream. |
| ClientV4.ConnectV4Op.constructor | include/boost/socks/impl/connect_v4.hpp:55-70 | The whole buffer is the request. |
| ClientV4.ConnectV4Op.OnRead | include/boost/socks/impl/connect_v4.hpp:104-129 | The operation completes with the verdict on the octets read. |
| ClientV4.AsyncConnectV4 | include/boost/socks/impl/connect_v4.hpp:72-131 | The coroutine has the blocking form's contract: same octets, error and endpoint for every stream. |
| ClientV4.V4ConsumesExactly | include/boost/socks/impl/connect_v4.hpp:94-129 | One message is written; success consumes exactly eight octets; a failure returns the default endpoint. |
| ClientV4.V4ReplyThroughClient | include/boost/socks/impl/connect_v4.ipp:63-101 | For every cut of the server's granting reply the client succeeds with the exact port and an address off by one octet; it returns the server's endpoint iff all address octets equal the port's low octet. |
| Diagnosis.V4Decides | include/boost/socks/impl/connect_v4.hpp:165-199 | Every outcome of the SOCKS4 client over every stream, by code. |
| Diagnosis.DiagnosedV4 | include/boost/socks/impl/connect_v4.ipp:75-101 | On an error-free stream its first eight octets alone decide, however it is cut. |
| HandshakeV4.EndToEndAgreementV4 | include/boost/socks/impl/connect_v4.hpp:72-131 | In every interleaving, cut and fault, a SOCKS4 client that finishes with success agrees with the server: exactly the requested endpoint was dialled and connected, the port returned is the server's and the address the shifted one, all that is unread is relayed data; the endpoint is the server's own iff its address octets all equal the port's low octet. |
| FaultFreeV4.HandshakeCompletesV4 | example/server/async/socks_server_async.cpp:638-659 | In every run without I/O errors that can go no further, whatever the user id: the client is granted the request, and the server relays, iff the target's last answer was yes; else the client has 91 and the server is closed. The server has dialled exactly the requested endpoint and been answered, unless its first read took one octet; then it has refused. |
| FaultFreeV4.RunsEndV4 | example/server/async/socks_server_async.cpp:93-138 | The moves of such a run other than the relay's number at most a bound given by the request. |
| FaultFreeV4.NeverStuck | example/server/async/socks_server_async.cpp:93-114 | One end can always go on until the client is complete and the server relays or is closed. |
| FaultFreeV4.StepOnCourse | example/server/async/socks_server_async.cpp:553-659 | Every move without an error keeps this: the server dials what was asked for unless it has read one octet, and answers with what became of it; the client completes only with that answer. |
| HandshakeV4.StepKeepsInv | example/server/async/socks_server_async.cpp:553-659 | Every move of either end keeps the joint SOCKS4 invariant. |
| HandshakeV4.RepliesInKind | example/server/async/socks_server_async.cpp:131-146 | Eight octets from the server mean that it has begun one honest SOCKS4 reply to a leading piece of the client's request, and nothing else. |
| HandshakeV4.RunV4IsDone | include/boost/socks/impl/connect_v4.hpp:145-200 | Every whole run of the SOCKS4 client is a run octet by octet with the same result, octets written and octets consumed. |
| ClientCodec.PrepareMethods | include/boost/socks/impl/connect.ipp:18-46 | Buffer holds the method list, the rest is untouched. |
| ClientCodec.PrepareGreeting | include/boost/socks/impl/connect.ipp:48-60 | Buffer holds the greeting of the options. |
| ClientCodec.PrepareUserpassRequest | include/boost/socks/impl/connect.ipp:62-90 | Buffer holds the request as written; the length is the number of octets written, up to the buffer's 513. |
| ClientCodec.WriteTargetHost | include/boost/socks/impl/connect.ipp:123-180 | ATYP, address or cut length octet and name, and port stand behind what was there. |
| ClientCodec.PrepareRequest | include/boost/socks/impl/connect.ipp:182-216 | The length computed apart equals the octets the loops wrote. |
| ClientCodec.ValidateServerChoice | include/boost/socks/impl/connect.ipp:289-313 | Verdict on the octets received in this read. |
| ClientCodec.ValidateUserpassReply | include/boost/socks/impl/connect.ipp:92-104 | Verdict on the octets received in this read. |
| ClientCodec.ShiftedAddress | include/boost/socks/impl/connect.ipp:254-257 | Four 32-bit shifts lose nothing and put the first octet highest. |
| ClientCodec.ParseReplyV5 | include/boost/socks/impl/connect.ipp:218-287 | The shifting parser computes the reply decoder, whose verdicts `Diagnosis.RequestDecides` gives by code. |
| ClientCodec.PrepareRequestV4 | include/boost/socks/impl/connect_v4.ipp:19-60 | Buffer holds the SOCKS4 request, field by field as in `Formats.RequestV4Fields`; the length is the number of octets written. |
| ClientCodec.ParseReplyV4 | include/boost/socks/impl/connect_v4.ipp:63-101 | The shifting parser computes the decoder as written. |
| Wire.DecodeReplyGrants | include/boost/socks/impl/connect.ipp:230-286 | The reply decoder succeeds on exactly the granted replies of matching length; any failure yields the default endpoint. |
| Formats.GreetingFields | include/boost/socks/impl/connect.ipp:18-60 | The greeting in octets. |
| Formats.UserpassFields | include/boost/socks/impl/connect.ipp:73-89 | Every field of the user/pass request, PWLEN with the wrong length. |
| Formats.RequestFields | include/boost/socks/impl/connect.ipp:106-216 | Every field of the CONNECT request: VER, CMD, RSV, ATYP, address or counted name, port with the high octet first. |
| Formats.ReplyFields | example/server/async/socks_server_async.cpp:666-715 | Every field of the CONNECT reply; a refusal carries zeros. |
| Formats.RequestV4Fields | include/boost/socks/impl/connect_v4.ipp:29-57 | Every field of the SOCKS4 request, the user id as given and then a NUL. |
| Formats.ReplyV4Fields | example/server/async/socks_server_async.cpp:753-792 | Every field of the SOCKS4 reply; a refusal carries zeros, and so does the address for one of IPv6. |
| Formats.UserIdRoundTrip | include/boost/socks/impl/connect_v4.ipp:51-57 | A reader up to the first NUL gets the user id back iff it has no NUL of its own, and else its beginning. |
| Formats.ParsedExactly | example/server/async/socks_server_async.cpp:391-551 | The server takes a target from a message iff the message is the request for that target and can express it. |
| Formats.RefusesElse | example/server/async/socks_server_async.cpp:399-470 | A message is refused iff it is no request at all, with 2, 7 or 8 by the first field that is wrong. |
| Formats.ParsedV4Exactly | example/server/async/socks_server_async.cpp:553-613 | The SOCKS4 server dials an endpoint iff the first eight octets are those of a request for it. |
| Formats.GreetingParsedExactly | example/server/async/socks_server_async.cpp:159-204 | A greeting is accepted iff it is a list of methods; the choice is told by number. |
| Formats.UserpassParsedExactly | example/server/async/socks_server_async.cpp:271-301 | A reader at the RFC's offset accepts exactly what begins with a message of these credentials; the offset does not decide on acceptance. |
| Formats.ReplyParsedExactly | include/boost/socks/impl/connect.ipp:230-286 | The client takes an endpoint from a reply iff it is the server's success reply with it, but for the reserved octet. |
| RoundTrips.RequestRoundTrip | include/boost/socks/impl/connect.ipp:106-216 | The server's parser recovers family, address or domain, and port from the request iff a domain has at most 255 octets. |
| RoundTrips.RequestHeard | example/server/async/socks_server_async.cpp:391-551 | The server accepts a leading piece of a request iff it has the length its octets announce; then it takes the target that was meant, or for a wrapped length the one named. |
| RoundTrips.ReplyRoundTrip | example/server/async/socks_server_async.cpp:661-746 | The client reads the server's reply back as its bound endpoint, or as a refusal with no endpoint, whose code `Diagnosis.RefusalReported` tells by number. |
| RoundTrips.NegotiationAgreement | include/boost/socks/impl/connect.ipp:289-303 | From the greeting the server picks the method of the options; the client accepts exactly the choices on its own list. |
| RoundTrips.ChoiceFromList | example/server/async/socks_server_async.cpp:159-204 | For every list the choice is 2 if listed anywhere, else 0 if listed, else 0xFF. |
| RoundTrips.UserpassRoundTripIntended | include/boost/socks/impl/connect.ipp:62-90 | With the password's length in PWLEN and the password read behind it, both strings are recovered for all lengths up to 255. |
| RoundTrips.UserpassAsWritten | example/server/async/socks_server_async.cpp:271-311 | As written the request is accepted iff the password is at least as long as the user name; what is then recovered. |
| RoundTrips.UserpassRoundTripExactly | example/server/async/socks_server_async.cpp:303-308 | As written both strings are recovered iff the lengths are equal and every octet of the password is that length. |
| RoundTrips.UserpassCounterexample | include/boost/socks/impl/connect.ipp:82-84 | User "a" and password "b" come out as "a" and octet 1. |
| RoundTrips.RequestV4RoundTrip | example/server/async/socks_server_async.cpp:553-613 | Port and address of a SOCKS4 request are recovered whatever the user id. |
| RoundTrips.ReplyV4AsWritten | example/server/async/socks_server_async.cpp:748-792 | What the client makes of the server's SOCKS4 reply. |
| RoundTrips.ReplyV4RoundTripExactly | include/boost/socks/impl/connect_v4.ipp:90-100 | The endpoint survives iff all address octets equal the port's low octet. |
| RoundTrips.ReplyV4Counterexample | include/boost/socks/impl/connect_v4.ipp:91-94 | 127.0.0.1:1080 comes back as 56.127.0.0:1080. |
| Transport.NoStaleRead | include/boost/socks/impl/connect.hpp:248-264 | Every completion condition, evaluated on the reused buffer, depends on octets of the current read alone. |
| Transport.ReadsExactly | include/boost/socks/impl/connect.hpp:275-280 | A condition that holds at the end of a message and nowhere before reads exactly that message, for every cut. |
| Transport.ReplyStops | include/boost/socks/impl/connect.hpp:248-264 | The reply condition stops at 10 octets of IPv4 or 22 of anything else, and nowhere before. |
| Transport.GreetingStops | example/server/async/socks_server_async.cpp:115-130 | The greeting read stops where NMETHODS says and nowhere before. |
| Transport.UserpassStops | example/server/async/socks_server_async.cpp:236-255 | The user/pass read never stops before 513 octets of a valid message. |
| Transport.RequestStops | example/server/async/socks_server_async.cpp:340-378 | The CONNECT read stops at the length it works out, which is the request's own unless the length octet wrapped. |
| Transport.RequestV4Stops | example/server/async/socks_server_async.cpp:93-114 | From two octets on, the SOCKS4 read stops exactly at the end of the request iff the user id has at most 249 octets and no NUL. |
| Transport.RequestV4FirstOctet | example/server/async/socks_server_async.cpp:102-103 | A first octet alone ends the SOCKS4 read at once. |
| Transport.Stream.Read | include/boost/socks/impl/connect.hpp:275-280 | The loop over a buffer with leftovers delivers what the composed read delivers on a fresh one. |
| Transport.Stream.Write | include/boost/socks/impl/connect.hpp:168-173 | All octets go out, or an error after some of them. |
| ServerReads.GreetingRead | example/server/async/socks_server_async.cpp:79-146 | Every cut of every method list is read to its end and answered from the list. |
| ServerReads.GreetingReadByCut | example/server/async/socks_server_async.cpp:115-130 | With anything sent behind the greeting, it is read exactly and answered iff an arrival ends with it or within it behind NMETHODS; else it is taken in with what follows and not answered. |
| ServerReads.ConnectRead | example/server/async/socks_server_async.cpp:332-389 | Every cut of a CONNECT request gives the wanted target iff a domain has at most 255 octets; it is then read to its end and no further. |
| ServerReads.ConnectReadEnds | example/server/async/socks_server_async.cpp:366-378 | The read ends without error at or behind the length it works out, losing nothing. |
| ServerReads.ConnectReadByCut | example/server/async/socks_server_async.cpp:340-378 | With anything sent behind the request, it is read exactly and understood iff an arrival ends with it or within it once its length is known; else it is refused with 8. |
| ServerReads.UserpassReadOutcome | example/server/async/socks_server_async.cpp:228-269 | Every cut of a user/pass request is taken in whole, but only 513 octets end the read; any other leaves it to the end of the stream. |
| ServerReads.UserpassReadTakes | example/server/async/socks_server_async.cpp:236-255 | For every cut of whatever follows a version octet 01 the read takes the first 513 octets, and ends by itself only with those. |
| ServerReads.RequestV4Read | example/server/async/socks_server_async.cpp:93-138 | A SOCKS4 request is recognised iff its first arrival has two octets or more; read to its NUL if the user id allows. |
| ServerReads.RequestV4ReadByCut | example/server/async/socks_server_async.cpp:93-114 | With anything sent behind a SOCKS4 request, it is recognised all the same, and read exactly iff an arrival ends with it. |
| ServerReads.FirstOctetAloneRefused | example/server/async/socks_server_async.cpp:569-576 | A first octet alone is answered with 91. |
| ServerRuns.ServerRunSafety | example/server/async/socks_server_async.cpp:206-226 | Every run against any client, resolver and target: one CONNECT reply at most; success told only of a connection to the requested target; relaying only after a whole success reply; a failure reply closes; no request read before the chosen exchange is complete. |
| ServerRuns.StepKeepsInv | example/server/async/socks_server_async.cpp:318-613 | Every event keeps the server's invariant. |
| ServerRuns.InvIsSafe | example/server/async/socks_server_async.cpp:616-813 | The invariant has those safety properties. |
| ServerAnswers.GreetingGoesOn | example/server/async/socks_server_async.cpp:79-130 | The first read goes on iff more octets can complete a greeting or a SOCKS4 request, but for a lone octet 04. |
| ServerAnswers.ConnectGoesOn | example/server/async/socks_server_async.cpp:340-378 | The CONNECT read goes on iff more octets can complete a request. |
| ServerAnswers.UserpassGoesOn | example/server/async/socks_server_async.cpp:236-255 | The user/pass read goes on to 513 octets, complete or not, unless the version is wrong. |
| ServerAnswers.GreetingAnswered | example/server/async/socks_server_async.cpp:131-226 | From every state of the server, in octets: what each whole first message is answered with, dialled for, or left unanswered. |
| ServerAnswers.UserpassAnswered | example/server/async/socks_server_async.cpp:257-320 | Every 513 octets with version 01 are accepted, anything else is left unanswered. |
| ServerAnswers.ConnectAnswered | example/server/async/socks_server_async.cpp:391-551 | A request is dialled or looked up as it says; anything else is refused in ten octets with the code of the first wrong field. |
| ServerAnswers.ResolverAnswered | example/server/async/socks_server_async.cpp:515-541 | The endpoint found is dialled; a failed lookup is answered with 4. |
| ServerAnswers.TargetAnswered | example/server/async/socks_server_async.cpp:615-659 | The target's yes is told as 0 or 90, its no as 4 or 91, in the client's version, with the local endpoint. |
| ServerAnswers.SaidAll | example/server/async/socks_server_async.cpp:206-226 | Each whole message leads to what its octets say: the next read, the relay after a success of either version, or the end. |
| ServerAnswers.ErrorCloses | example/server/async/socks_server_async.cpp:131-146 | An error of any read or write closes the connection without a further message. |
| Server.ReadFacts | example/server/async/socks_server_async.cpp:515-541 | No read ends with a message the parsers would index out of range. |
| SocksConnections.SocksConnection.constructor | example/server/async/socks_server_async.cpp:150-158 | A new connection reads a greeting into a zeroed buffer. |
| SocksConnections.SocksConnection.OnReadSome | example/server/async/socks_server_async.cpp:79-131 | A piece that arrives in the reused buffer has the effect it has on the octets of this read alone. |
| SocksConnections.SocksConnection.OnReadComplete | example/server/async/socks_server_async.cpp:131-146 | The handlers of the three reads. |
| SocksConnections.SocksConnection.Find | example/server/async/socks_server_async.cpp:182-199 | The loop finds a method iff it is in the list. |
| SocksConnections.SocksConnection.ParseSocksGreeting | example/server/async/socks_server_async.cpp:159-211 | Choice by the specification, or closed without one. |
| SocksConnections.SocksConnection.ParseUserpassGreeting | example/server/async/socks_server_async.cpp:271-317 | Accepts exactly what the specification parses. |
| SocksConnections.SocksConnection.ParseSocksConnect | example/server/async/socks_server_async.cpp:391-551 | Refusal, target or lookup by the specification, the rest unchanged. |
| SocksConnections.SocksConnection.ParseSocksConnectV4 | example/server/async/socks_server_async.cpp:553-613 | The same for SOCKS4. |
| SocksConnections.SocksConnection.OnResolveComplete | example/server/async/socks_server_async.cpp:519-541 | Dials the answer, or replies host unreachable. |
| SocksConnections.SocksConnection.OnConnectComplete | example/server/async/socks_server_async.cpp:615-659 | Replies as `ServerAnswers.TargetAnswered` tells in octets: success iff the target accepted, in the client's version. |
| SocksConnections.SocksConnection.DoConnectReply | example/server/async/socks_server_async.cpp:661-715 | The buffer becomes exactly the reply, whatever was in it. |
| SocksConnections.SocksConnection.DoConnectReplyV4 | example/server/async/socks_server_async.cpp:748-792 | The same for SOCKS4. |
| SocksConnections.SocksConnection.OnWriteSome | example/server/async/socks_server_async.cpp:716-813 | The handlers of the writes: next read, relay or close. |
| SocksConnections.SocksConnection.DoRelay | example/server/async/socks_server_async.cpp:815-822 | Both loops start with nothing moved. |
| SocksConnections.SocksConnection.OnClientData | example/server/async/socks_server_async.cpp:824-842 | One step of the loop towards the target, which ends at an error (`Relay.FailureEnds`); the other direction's pipe and buffer stay as they are. |
| SocksConnections.SocksConnection.OnTargetWritten | example/server/async/socks_server_async.cpp:844-856 | The same; the count written is dropped. |
| SocksConnections.SocksConnection.OnTargetData | example/server/async/socks_server_async.cpp:858-876 | One step of the loop towards the client, alike. |
| SocksConnections.SocksConnection.OnClientWritten | example/server/async/socks_server_async.cpp:878-890 | The same; the count written is dropped. |
| Relay.RelayConserves | example/server/async/socks_server_async.cpp:816-890 | In every interleaving of both loops, one direction conserves what it reads (in order, at most 1024 octets behind) iff none of its own writes is short. |
| Relay.LossIsFinal | example/server/async/socks_server_async.cpp:844-856 | What a short write dropped never comes back. |
| Relay.RelayEnds | example/server/async/socks_server_async.cpp:831-836 | Over every interleaving: after a read or write of one direction has failed, nothing of that direction follows and nothing more is moved in it, while the other direction goes on as if nothing had happened. |
| Relay.FailureEnds | example/server/async/socks_server_async.cpp:867-872 | The step that fails ends its loop, has taken in nothing, and has written only what went out. |
| Relay.SuccessGoesOn | example/server/async/socks_server_async.cpp:837-855 | A chunk read is written next, and after any write the loop reads on. |
| Relay.ShortWriteLoses | example/server/async/socks_server_async.cpp:844-856 | A run that loses octets. |

## Left out

- Executors, allocators, shared ownership and the coroutine macros: the coroutine is an explicit place plus a resume method, the server's lambdas are handler methods.
- `asio::async_write` inside the client and server objects: one outcome per message for the client's `Stream.Write`; the pieces in which a message goes out are in the octet-by-octet runs.
- DNS resolution, connecting to the target and its local endpoint: parameters of the handlers, any answer is allowed.
- Exceptions of `local_endpoint()` on a socket that is not open: taken as a total function.
- The accept loop, signals, logging and `main` of the server; the example clients.
- The value `authenticate` returns: its caller ignores it.
- Messages and condition tables of the error category: reply codes outside the assigned ones are one code.
- Requests that the source's assertions exclude (credentials over 255 octets, a request over 513 octets): outside `Config.Valid`.
- The IPv6 scope identifier: it never goes on the wire.
- Application data that the client's user sends after the handshake: the joint model ends with the client's result, while the server's relay towards the client goes on.
- FaultFree.HandshakeCompletes: says nothing of a domain of more than 255 octets, whose length the protocol cannot express; what the server takes from such a request is stated by `ServerReads.ConnectRead`, and `FaultFree.RunsEnd` and `Handshake.EndToEndAgreement` cover it.
- GSS-API, BIND, UDP ASSOCIATE and SOCKS4A: documented, but not implemented.
- Time: a server that waits for ever is a run that cannot go on, not a timeout.
