# A verified model of the NetherNet client, server and codecs

The repository connects two programs over WebRTC data channels. They find each other with encrypted UDP datagrams,
exchange an SDP offer and answer as text signals, and then send messages in numbered fragments. This project models
the five parts of it whose behaviour is hard to see from one function, and proves what they are for.

| part | modules | what is proved |
|---|---|---|
| client negotiation | `ClientModel`, `Client`, `ClientProofs`, `ClientEvents`, `ClientSignals`, `ClientProgress`, `ClientFlow` | an invariant over every interleaving of calls, timers, peer events and resumed awaits; superseded work is inert; the event grammar and exactly when it fails; what is sent, and that no attempt sends two requests; how often an attempt's timer can be set again; how an attempt succeeds, and what every step does |
| server table | `ServerModel`, `Server`, `ServerProofs`, `ServerResponses`, `ServerFlow` | the maps are the live connections; what each connection says in its lifetime; when a connection is left half open; shutdown; exactly what is sent for a connection that has closed; how an offer becomes an open connection, and when exactly one opens |
| transport | `Transport`, `Delivery`, `Connection` | fragmentation and reassembly for every length; arbitrary fragment streams; first in, first out, end to end |
| TURN redirects | `TurnRedirect`, `TurnAnswers`, `TurnUrl` | the attribute loop is sound and complete against the grammar of RFC 8489; what an answer means, from its bytes; the URL reader against its regular expression |
| codecs | `Discovery`, `Messages`, `SdpIdentity`, `SdpFingerprints`, `SdpLines`, `Text`, `Bytes` | round trips, field layouts, exact recovery of undercounted answers, what a fingerprint line yields, SDP identity editing |

`Wrappers` and `Sequences` hold the optional value and laws of concatenation.

## How the model is made

Each run of synchronous code is one atomic step. A call suspended at an await is a record with the stage it is
suspended at and the controller, peer or connection it captured, and resuming any record, in any order and with any
outcome, is a step. Objects compared by identity in the source (peers, connections, abort controllers) are numbered
in the order they are created.

`ClientModel`, `ServerModel`, `Transport` and `Delivery` give every operation as a function. The classes `Client`,
`Server` and `Connection` have the fields of the source's classes and update them in place, including the re-entrant
`close`, and each of their methods is proved to do what its function says. The methods of `Client` and `Server` that
the environment calls also require and keep the invariant of the proofs, and `Dispatch` is every step of a run as such
a call, so the theorems about runs of the functions hold of the objects.

`World` in both models is a history: what was created, suspended, emitted and sent. A signal counts as sent when it is
handed to the signal handler or to `respond`, whether or not that throws.

Assumptions about the environment:

- Listeners and signal handlers return normally and do not call back in. The one exception is modelled: a `respond`
  callback of the server that throws.
- `getRandomUint64` returns ids that were not used before, and `createOffer` is reached through `startOffer` only.
- A server's peer reports connected after its answer was handed to `respond`, and not once it is closed.
- Closing a peer or a channel does not throw. It may call `onclose` at once, which the classes model.
- A data channel is ordered and reliable; its becoming open and `onopen` flushing the queue are one step. `send` on a
  channel that reads open does not throw.
- Decryption inverts encryption, a checksum is 32 bytes long, an honest signature verifies, and encoded forms contain
  neither line breaks nor full stops (section 5 of RFC 8827, appendix F of RFC 7515). Within one `Scheme` signing is
  deterministic, which ES384 is not; `SdpIdentity.ReplacingIff` has two schemes and so needs no such assumption.

## What turned out to be false

- An answer that reaches a client with neither an attempt nor a connection makes it emit a `disconnect` that belongs
  to no attempt. The event grammar holds over a run exactly when that does not happen
  (`ClientEvents.EventGrammarIff`). If the answer named the server's network, it also makes the client send a
  CONNECTERROR 13; it does nothing else (`ClientEvents.StrayAnswerOnlyEmits`).
- The timeouts do not bound an attempt by themselves. Over every run its timer is set again at most once for every
  answer in flight, once for a pending discovery, and once for every further answer that is handled
  (`ClientProgress.RearmsAreCounted`). The bound is reached: a remote side that keeps answering keeps the attempt going
  (`ClientProgress.AnswersKeepItGoing`).
- A `respond` that throws while `handleOffer` reports a failure skips the `close` behind it and leaves a connection
  that no timer will end. Connections are never left half open over a run exactly when that does not happen
  (`ServerProofs.NeverHalfOpenIff`).
- A message of more than 2,560,000 bytes arrives in several pieces, because the countdown is one byte
  (`Transport.WholeIffShort`).
- Messages can be overtaken. Over a run, their order is kept in every continuation that attaches in order exactly when
  no channel that is already open is attached over a queue with bytes in it (`Delivery.OrderIsKeptIff`), and a queue is
  never stuck exactly when none is attached over a queue at all (`Delivery.NeverStuckIff`); what is stuck is never sent
  (`Delivery.AttachedOpenNeverFlushes`).
- Attaching a second identity differs from attaching only the second exactly when an SDP without CRLF and without media
  lines ends in a carriage return and has more than one line (`SdpIdentity.ReplacingIff`); there is such a text with a
  fingerprint, on which every two identities differ (`SdpIdentity.StrayExampleFails`).
- Signals may be sent for a connection that has closed. Nothing is sent for it over a run exactly when no step of the
  run is one of three: a candidate in flight fails and there is a `respond`, its own peer gathers a candidate, or a
  channel of its peer is refused (`ServerResponses.ClosedIsSilentIff`). The shortest run that sends one closes a
  connection while a candidate is being added (`ServerResponses.LateExample`).
- A connection that is closed in the middle of a message still emits the rest of it, without the part received before
  (`Transport.ClosedMidMessage`).
- A signal whose type contains a space does not survive its text form (`Messages.RoundTripIffPlainType`).

## Model

| member | source | states |
|---|---|---|
| `ClientProofs.NextKeepsInv` | src/client.js:104-455 | every step, in every order, keeps the invariant: connection and peer are both null or one open pair of the current id; exactly one of connecting and connected holds for it; a pending connect is an attempt without a connection; a closed client has neither pair nor timer; every controller but the latest is aborted; every peer ever created is current or closed |
| `ClientProofs.FailEnds` | src/client.js:147-168 | under the pairing, failing closes the pair if there is one, clears flags and timer, emits exactly one disconnect with the error, and signals that error if there is a network to signal to, whichever of its two branches runs |
| `ClientProofs.CloseEnds` | src/client.js:104-117 | closing any connection ever made ends the attempt if it is the current one and otherwise changes nothing |
| `ClientProofs.CloseIs` | src/client.js:472-492 | closing the client is the end of its connection, once, plus the closed flag |
| `ClientProofs.EndedKeepsInv` | src/client.js:104-168 | an ended attempt leaves a state of the invariant, with the pair closed |
| `ClientProofs.MakePeerKeepsInv` | src/client.js:231-284 | creating a peer keeps the invariant even when making its channels throws: the pair stays and the timer still bounds it |
| `ClientProofs.CreateOfferKeepsInv` | src/client.js:220-284 | starting an offer aborts the previous controller and keeps the invariant |
| `ClientProofs.ResumeOfferKeepsInv` | src/client.js:227-337 | resuming an offer at any of its awaits, with any outcome, keeps the invariant |
| `ClientProofs.ResumeCallKeepsInv` | src/client.js:184-218 | so does resuming an answer or a candidate |
| `ClientProofs.SupersededOfferIsInert` | src/client.js:220-338 | an offer that is not the latest, an aborted lookup, or an offer whose peer is no longer current only disappears when resumed |
| `ClientProofs.SupersededCallIsInert` | src/client.js:196-217 | an answer or candidate for a peer that is not current only disappears when resumed |
| `ClientProofs.OldPeerIsInert` | src/client.js:243-276 | no event of a peer that is not current changes anything |
| `ClientEvents.NextDoes` | src/client.js:104-492 | every step of an open client is one of seven moves, each allowed only in its phase, and it is a stray answer exactly under a condition on fields and signal |
| `ClientEvents.EventGrammarIff` | src/client.js:104-168 | over every run, the log is attempts with at most one connected then at most one disconnect each, under the attempt's id, exactly when no answer was handled by an idle client; then the fields say where the log stands, so an attempt that is over has emitted its one disconnect |
| `ClientEvents.StrayAnswerOnlyEmits` | src/client.js:203-218 | what an answer does to an idle client: one extra disconnect, a CONNECTERROR 13 under the client's id if the answer named the server's network, and nothing else |
| `ClientEvents.StrayAnswerExample` | src/client.js:395-404 | helper: the shortest run that breaks the grammar |
| `ClientEvents.EarlyAnswerEndsAttempt` | src/client.js:203-218 | an answer during an attempt that has no peer yet ends the attempt, and is told 13 if it named the server's network |
| `ClientEvents.CloseEmits` | src/client.js:472-492 | closing emits one disconnect if there is a connection and none otherwise, sends nothing, and leaves neither pair nor timer |
| `ClientEvents.ClosedIsSilent` | src/client.js:220-412 | no step of a closed client emits, sends, sets a timer, reopens or takes a new id |
| `ClientEvents.OfferFailureIsReported` | src/client.js:232-336 | helper: a failure of the current offer ends the attempt and is signalled under its stage's error code, 4, 10, 12 or 26; the request was handed over before it only if the signal handler is what failed |
| `ClientEvents.CallFailureIsReported` | src/client.js:196-217 | helper: a failed answer or candidate of the current peer ends the attempt under 13 or 8, and is signalled if its signal named the network |
| `ClientEvents.OlderSignalIsInert` | src/client.js:170-182 | after any run, a signal with the id of an attempt other than the last changes nothing |
| `ClientEvents.RunKeepsIds` | src/client.js:438-443 | over every run attempts have distinct ids and the current id is the last attempt's |
| `ClientProgress.NextIsBounded` | src/client.js:127-145 | with positive timeouts every step keeps: an attempt has an armed timer or an answer in flight for its peer |
| `ClientProgress.RunIsBounded` | src/client.js:438-455 | so it holds of every state of every run |
| `ClientProgress.TimerEndsAnAttempt` | src/client.js:142-144 | an armed timer means an attempt of an open client, and firing ends it with one disconnect and one CONNECTERROR under the timer's code |
| `ClientProgress.AttemptEndsByItself` | src/client.js:135-218 | in every state of an attempt either the timer is armed and its firing ends the attempt, or an answer is in flight: each such answer ends the attempt if it fails, and if it succeeds arms a timer whose firing ends it |
| `ClientProgress.RearmsAreCounted` | src/client.js:127-145 | over every run, until the attempt is reported connected or disconnected: timers set plus the budget (answers in flight, plus one while discovery is pending) rises by at most the number of answers handled; when the budget is used up the timer is armed and its firing ends the attempt |
| `ClientProgress.RearmsAreBounded` | src/client.js:127-145 | helper: the case of `RearmsAreCounted` in which no further answer is handled |
| `ClientProgress.NextPays` | src/client.js:203-218 | one step without an answer ends the attempt or pays for every timer it sets with one of the budget |
| `ClientProgress.AnswersKeepItGoing` | src/client.js:203-212 | the bound is reached: for every n, n answers that are handled and applied leave the attempt going, with its log and budget unchanged and the timer set n times more |
| `ClientSignals.OneRequestPerAttempt` | src/client.js:324-336 | over every run no two requests share an id, each request's id is that of an attempt, and every candidate and error bears an id the client has used |
| `ClientSignals.RunKeepsAccounts` | src/client.js:220-337 | from every state that is accounted for, over every run: once an attempt's request has been sent, no suspended work is left that could send another |
| `ClientSignals.NextAdds` | src/client.js:119-125 | each step adds a request exactly when the current offer has its local description and signals do not go over HTTP, and then at most errors and candidates, all under the current id |
| `ClientSignals.ClosedForGood` | src/client.js:472-492 | over every run a closed client emits nothing, sends nothing, sets no timer and has neither pair nor timer |
| `ClientFlow.AttemptSucceeds` | src/client.js:203-455 | from every state in which an attempt can begin: connect, the discovery if it is needed, the lookup if there is one, the offer, the description, an answer and the peer connecting leave exactly the events attempt and connected, exactly one request, the new peer current, and no timer |
| `ClientFlow.HttpAttemptSucceeds` | src/client.js:309-313 | the same over HTTP, where the exchange takes the place of request and answer and nothing is sent |
| `ClientFlow.ConnectSendsRequest` | src/client.js:220-331 | up to the local description: exactly one request is sent, under the attempt's id, and the attempt is under way with timer 14 |
| `ClientFlow.ConnectExchanges` | src/client.js:309-312 | over HTTP the exchange is suspended instead, and its success is an answer in flight for the peer |
| `ClientFlow.BeginningOffers` | src/client.js:220-284 | whether the server is known or has to be discovered, and with or without a lookup, the new peer is asked for an offer |
| `ClientFlow.NewClientBegins` | src/client.js:32-73 | a new client's first attempt has the id it was given, and over HTTP begins without discovery |
| `ClientFlow.PeerConnectsReports` | src/client.js:254-263 | the current peer of an attempt connecting is reported with one connected event; the timer and every controller are gone and the pair is kept |
| `ClientFlow.ConnectedIff` | src/client.js:258-263 | a step emits connected exactly when it is the current peer of an attempt connecting |
| `ClientFlow.UnheardIsInert` | src/client.js:170-182 | a signal under another id, from another network, or to a closed client changes nothing |
| `ClientFlow.AnswerIsApplied` | src/client.js:203-209 | an answer that is heard is applied to the current peer, with timer and controllers stopped |
| `ClientFlow.CandidateIsAdded` | src/client.js:184-194 | a candidate that is heard is added to the current peer, if there is one |
| `ClientFlow.ErrorEndsIt` | src/client.js:408-410 | an error that is heard ends the attempt or connection for its reason; other kinds change nothing |
| `ClientFlow.AnswerArmsTimer` | src/client.js:209-212 | an answer that was applied arms the inactivity timer under 9, unless that timeout is not positive |
| `ClientFlow.CurrentPeerEndsIt` | src/client.js:264-276 | a final state of the current peer ends it as disconnected, and its closing for the reason given |
| `ClientFlow.EndedSaysWhy` | src/client.js:104-117 | what an end is: idle, the pair closed, one disconnect with the reason, every controller aborted |
| `ClientFlow.ConnectFails` | src/client.js:225-237 | ICE servers that do not pass or a peer that cannot be made end the attempt at once under 4, which is signalled |
| `ClientFlow.ChannelsFail` | src/client.js:278-284 | if the channels cannot be made, the pair stays with no offer to go on with, and the timer is left to end it |
| `ClientFlow.ExchangeFailureCloses` | src/client.js:313-320 | an exchange that fails closes the client, unless its offer was aborted |
| `ClientFlow.ResponseIsRemembered` | src/client.js:361-375 | a response from the server makes its address known; one from elsewhere is ignored |
| `ClientFlow.GatheringSendsIff` | src/client.js:245-252 | a candidate is sent exactly for the current peer, and not over HTTP |
| `ClientFlow.BusyIgnoresConnect` | src/client.js:438-440 | helper: connect changes nothing on a client that cannot begin an attempt |
| `ClientFlow.SuccessIsQuiet` | src/client.js:194-212 | helper: a candidate that was added, or an answer applied after connecting, changes nothing |
| `ClientProofs.InitialInv` | src/client.js:32-73 | helper: a new client satisfies the invariant |
| `Client.Client.constructor` | src/client.js:32-73 | a new client is the initial state, with HTTP counted as external signalling |
| `Client.Client.Dispatch` | src/client.js:76-492 | every step of a run is a call of one of the methods, from a valid object to a valid object |
| `Client.Client.SetSignalHandler` | src/client.js:76-80 | replacing the handler marks signalling as external |
| `Client.Client.HandleConnectionClosed` | src/client.js:104-117 | the fields after the owner hears of a closed connection |
| `Client.Client.ClearNegotiationTimeouts` | src/client.js:127-133 | helper: the current controller is aborted and the timer gone |
| `Client.Client.ArmNegotiationTimeout` | src/client.js:135-145 | helper: the old timer is gone, and a new one is armed unless the timeout is not positive |
| `Client.Client.FailNegotiation` | src/client.js:147-168 | the fields, the disconnect and the error signal after a failure |
| `Client.Client.CloseConnection` | src/connection.js:129-149 | closing through channels that call back at once notifies the owner once |
| `Client.Client.HandleCandidate` | src/client.js:184-194 | the call is suspended with the peer of that moment, or ignored |
| `Client.Client.ResumeCandidate` | src/client.js:194-200 | the fields after the candidate was taken or refused |
| `Client.Client.HandleAnswer` | src/client.js:203-209 | the call is suspended with the peer of that moment; without one it fails at once |
| `Client.Client.ResumeAnswer` | src/client.js:209-217 | the inactivity timer is armed for a current peer that is not connected, or the negotiation fails |
| `Client.Client.CreateOffer` | src/client.js:220-240 | the fields up to the first await |
| `Client.Client.MakePeer` | src/client.js:231-288 | the fields from the peer's creation to the next await |
| `Client.Client.ResumeAfterLookup` | src/client.js:228-238 | the fields after the ICE server lookup |
| `Client.Client.ResumeAfterOffer` | src/client.js:286-299 | the fields after the peer's offer |
| `Client.Client.ResumeAfterLocal` | src/client.js:298-336 | the fields and the sent signals after the local description: over to HTTP, or the request is handed to the signal handler |
| `Client.Client.SendOffer` | src/client.js:324-336 | the request is sent unless attaching the identity failed, and a failure of either is reported under 26 |
| `Client.Client.OnIceCandidate` | src/client.js:245-252 | a candidate is sent for the current peer only, and not over HTTP |
| `Client.Client.ResumeAfterExchange` | src/client.js:309-322 | the fields after the HTTP exchange: the answer is handled, or the client closes |
| `Client.Client.OnConnectionStateChange` | src/client.js:254-267 | the fields after the peer connected or failed |
| `Client.Client.HandleResponse` | src/client.js:361-375 | the address is known, and a pending attempt for that server makes its offer |
| `Client.Client.HandleSignal` | src/client.js:395-412 | the fields after each kind of signal |
| `Client.Client.Connect` | src/client.js:438-455 | a closed client throws; a busy one does nothing; otherwise an attempt begins |
| `Client.Client.Close` | src/client.js:472-492 | the fields after the client was closed; every peer and connection ever made is closed |
| `Client.Client.OnNegotiationTimeout` | src/client.js:142-144 | the timer's firing ends the attempt with one disconnect under its code |
| `ServerProofs.NextKeepsInv` | src/server.js:51-253 | every step keeps: the map holds exactly the unclosed connections, each under its own address; every timer is that of a live connection not open yet whose offer has finished; each connection's events are exactly its story; each was answered at most once, and not before its offer got there |
| `ServerProofs.TableAndLogAgree` | src/server.js:51-147 | over every run, unclosed means registered under one's own address, so an id has at most one; each connection emits openConnection at most once and first, and closeConnection exactly once when it closes; it is answered at most once, and exactly once if it opened |
| `ServerProofs.CloseKeepsInv` | src/connection.js:133-149 | closing any connection keeps the invariant, and says so once |
| `ServerProofs.ResumeKeepsInv` | src/server.js:206-253 | resuming an offer at any await with any outcome, or a throwing respond, keeps it |
| `ServerProofs.ChannelKeepsInv` | src/server.js:160-185 | so does every incoming channel: expected, duplicate or unknown |
| `ServerProofs.CloseAllRemoves` | src/server.js:360-362 | the loop over a map that its own body shrinks closes exactly the listed connections |
| `ServerProofs.CloseEmptiesTables` | src/server.js:356-362 | shutdown closes every connection and leaves both maps empty |
| `ServerProofs.NextCoversIff` | src/server.js:68-92 | one step leaves a connection half open exactly when it is a handleOffer that ends by a throwing respond |
| `ServerProofs.NeverHalfOpenIff` | src/server.js:206-253 | with a positive timeout, over every run: every live connection that has not opened has its offer in flight or an accept timer, exactly when no handleOffer was abandoned |
| `ServerProofs.HalfOpenExample` | src/server.js:211-215 | helper: the shortest run that leaves one half open |
| `ServerProofs.TimerCloses` | src/server.js:75-89 | an accept timer fires for a live unopened connection, reports 15 and closes it with one event |
| `ServerProofs.ClosedOfferIsInert` | src/server.js:206-241 | an offer whose own connection has closed hands nothing to respond and arms nothing when resumed, even if its id is in use again |
| `ServerProofs.ClosedForGood` | src/server.js:356-369 | over every run a closed server stays closed and empty, emits nothing, and hands respond only late candidate failures, refused channels and local candidates |
| `ServerResponses.ClosedIsNotAnswered` | src/server.js:206-253 | over every run a connection that has closed stays closed, is not answered, and is told of no failed offer and no timeout |
| `ServerResponses.ClosedIsSilentIff` | src/server.js:98-204 | over every run, nothing is sent for a connection after it has closed exactly when no step of the run fails a candidate of it in flight with a respond, gathers a candidate of its peer, or refuses a channel of its peer |
| `ServerResponses.ClosedSendsLate` | src/server.js:98-204 | over every run, what is sent for a connection after it has closed is, in order, one signal for each such step: CONNECTERROR 8, CANDIDATEADD, or CONNECTERROR 16 |
| `ServerResponses.ClosedConnNext` | src/server.js:98-253 | one step sends for a connection that has closed exactly that |
| `ServerResponses.LateExample` | src/server.js:98-112 | helper: the shortest run that sends for a closed connection |
| `ServerFlow.OfferOpens` | src/server.js:118-253 | from every state of an open server, an offer under a free id whose awaits succeed, whose peer connects and whose two channels arrive in either order is answered once and opens once, registered and without a timer |
| `ServerFlow.OfferIsAnswered` | src/server.js:206-247 | three awaits that succeed hand the answer to respond, once, and arm the accept timer unless the timeout is not positive |
| `ServerFlow.NextOpensExactly` | src/server.js:133-145 | a step opens a connection exactly when it brings the last of: the reliable channel, the unreliable channel, a connected peer |
| `ServerFlow.RunOpensInTime` | src/server.js:133-145 | over every run, a connection that has opened has both channels, and one that has both and is connected has opened |
| `ServerFlow.OfferIsTaken` | src/server.js:118-147 | helper: an offer is registered under its id, or refused under 4 if its peer cannot be made |
| `ServerFlow.OfferIsIgnored` | src/server.js:119 | helper: an offer under an id in use, or to a closed server, changes nothing |
| `ServerFlow.CandidateIsAdded` | src/server.js:98-104 | helper: a candidate is added to the connection registered under its id |
| `ServerFlow.FailedCandidateEnds` | src/server.js:102-112 | a candidate that fails ends its live connection, with one closeConnection, and 8 is reported if there is a respond |
| `ServerFlow.RefusedChannelEnds` | src/server.js:164-176 | a channel that is unknown or there already is reported under 16 and ends its live connection, unless reporting throws |
| `ServerFlow.ClosingEnds` | src/server.js:193-204 | a final peer state, a closing channel or an error signal end a live connection, with one closeConnection and nothing sent |
| `ServerProofs.FailureIsReported` | src/server.js:206-253 | helper: the code each failure of a live offer is reported under: 13, 11, 12, and 26 after the answer itself |
| `Server.Server.Dispatch` | src/server.js:51-369 | every step of a run is a call of one of the methods, from a valid object to a valid object |
| `Server.Server.SendAnswer` | src/server.js:243-252 | the answer is handed to respond once, then the timer is armed or the failure reported |
| `Server.Server.HandleError` | src/server.js:332-334 | an error signal closes the connection of that id |
| `Server.Server.OnIceCandidate` | src/server.js:151-158 | a candidate of the connection's own peer is handed to respond |
| `Server.Server.constructor` | src/server.js:32-49 | a new server has empty maps |
| `Server.Server.HandleConnectionClosed` | src/server.js:51-56 | the maps after the owner hears of a closed connection |
| `Server.Server.ClearAcceptTimeout` | src/server.js:58-66 | helper: no timer is left for that id |
| `Server.Server.ArmAcceptTimeout` | src/server.js:68-92 | helper: the old timer is gone and a new one armed unless the timeout is not positive |
| `Server.Server.CloseConnection` | src/connection.js:129-149 | closing through channels and peers that call back at once tells the owner once |
| `Server.Server.HandleOffer` | src/server.js:118-147 | a duplicate id or a closed server ignores the offer; otherwise the connection is registered and the offer suspended |
| `Server.Server.ResumeOffer` | src/server.js:206-253 | the state after each await of an offer, with each outcome, and what was handed to respond |
| `Server.Server.EmitOpenConnection` | src/server.js:133-145 | openConnection needs both channels and a connected peer, and comes once |
| `Server.Server.HandleCandidate` | src/server.js:98-104 | the call is suspended with the connection of that moment |
| `Server.Server.ResumeCandidate` | src/server.js:102-112 | a refused candidate closes the connection that was captured, and then 8 is reported if there is a respond |
| `Server.Server.OnDataChannel` | src/server.js:160-185 | the state after an expected, duplicate or unknown channel; the last two are reported under 16 |
| `Server.Server.OnConnectionStateChange` | src/server.js:187-196 | the state after the peer connected or ended |
| `Server.Server.OnAcceptTimeout` | src/server.js:75-89 | the state after an accept timer fired |
| `Server.Server.Close` | src/server.js:356-362 | the loop visits the entries its own callbacks have not removed; both maps are empty and every connection is closed |
| `Transport.Reassembly` | src/connection.js:52-120 | for every non-empty message of any length: no fragment is rejected, the receiver is idle again, it emitted ceil(k/256) messages for k = ceil(length/10000), and joined they are the original |
| `Transport.WholeIffShort` | src/connection.js:102-108 | the message arrives as one exactly when it has at most 2,560,000 bytes |
| `Transport.FragmentAt` | src/connection.js:104-108 | fragment j is the j-th slice of 10000 bytes behind the low byte of the count of those to come |
| `Transport.FragmentSizes` | src/connection.js:102-108 | how many fragments there are, how long each is, and the count it carries, in figures |
| `Transport.ChunksCover` | src/connection.js:104-113 | the slices joined are the message, and there are ceil(length/10000) |
| `Transport.EmissionsAreRuns` | src/connection.js:52-78 | for an arbitrary stream: what was accepted is complete countdowns and an unfinished one, each emission is the payload of exactly one complete countdown, and the fields describe the unfinished one |
| `Transport.SplitIsUnique` | src/connection.js:65-74 | there is only one way to read a stream so |
| `Transport.ReceiverBounds` | src/connection.js:57-78 | buf is set exactly when segments are promised, and buffered plus promised fragments are at most 256 |
| `Transport.RejectionIsInert` | src/connection.js:57-67 | helper: a rejected fragment leaves the state unchanged |
| `Transport.RejectedIff` | src/connection.js:57-67 | a fragment is rejected exactly when it is shorter than two bytes or does not count down from the unfinished run |
| `Transport.ClosedMidMessage` | src/connection.js:52-78 | for every message and every number of fragments taken before the connection is closed: the rest are accepted, and are emitted as the message without the slices already taken; the receiver is idle again |
| `Delivery.NextKeepsInv` | src/connection.js:18-127 | every step keeps: delivered, on the wire and queued are together the fragments of the accepted messages in order, and a prefix of them once the channel is closing |
| `Delivery.FifoForAllSizes` | src/connection.js:52-127 | over every interleaving nothing is rejected, emissions are a prefix of what the accepted messages amount to, and all of it once an open connection has drained |
| `Delivery.Fifo` | src/connection.js:52-127 | with messages of at most 2,560,000 bytes, on runs that attach in order, emissions are a prefix of the accepted non-empty messages, and all of them once drained |
| `Delivery.EverythingArrives` | src/connection.js:18-127 | from every state of a connection that has not begun to close, once its channel is open and the wire is drained, all that was accepted has been emitted |
| `Delivery.AcceptedIff` | src/connection.js:80-98 | helper: which messages send takes on, and what it answers |
| `Delivery.ClosedSendsNothing` | src/connection.js:80-81 | over every run, a connection that has closed takes on nothing, and no more arrives than was on the wire |
| `Delivery.ClosingStops` | src/connection.js:133-144 | helper: closing drops the queue and closes the channel, once |
| `Delivery.OrderIsKeptIff` | src/connection.js:18-28 | from every state of the invariant and for every run: at each state on the way every orderly continuation stays in order, exactly when the run attaches no open channel over queued bytes; from any other run a continuation of two steps delivers a later message first |
| `Delivery.NeverStuckIff` | src/connection.js:26-28 | no queue is stuck behind an open channel at any state of a run exactly when no open channel is attached over a queue in it |
| `Delivery.OvertakenIfAttachedOpen` | src/connection.js:86-97 | helper: the run that shows why a queue must not meet an already open channel |
| `Delivery.AttachedOpenNeverFlushes` | src/connection.js:26-28 | what was queued when an open channel was attached is never sent, over every continuation, until closing drops it |
| `Connection.Connection.constructor` | src/connection.js:6-16 | a new connection is idle |
| `Connection.Connection.SetChannels` | src/connection.js:18-50 | helper: null leaves a channel as it was |
| `Connection.Connection.HandleMessage` | src/connection.js:52-78 | fields, outcome and emission for every message, including the two exceptions |
| `Connection.Connection.Send` | src/connection.js:80-98 | queued, sent, or one of two exceptions |
| `Connection.Connection.SendNow` | src/connection.js:100-120 | the loop puts exactly the fragments on the channel, returns the number of bytes, and its final exception cannot happen |
| `Connection.Connection.ChannelOpened` | src/connection.js:26-28 | opening sends the whole queue in order |
| `Connection.Connection.FlushQueue` | src/connection.js:122-127 | the queue is empty and its fragments are sent in order |
| `Connection.Connection.NotifyClosed` | src/connection.js:129-131 | helper: the same as closing |
| `Connection.Connection.Close` | src/connection.js:133-149 | with channels that call back at once: the peer is closed once, the owner told once, buffer and queue dropped, the promised count kept |
| `TurnRedirect.ParseRedirect` | src/werift/turnRedirect.js:21-49 | a value comes back exactly when the bytes are a matching Allocate error header with an encoding of an attribute list that has an ERROR-CODE and none under 4 bytes; it is that list's verdict: the last well-formed IPv4 alternate with a non-zero port if the last code is 300, otherwise null |
| `TurnAnswers.BytesSayRedirect` | src/werift/turnRedirect.js:21-49 | for every request, the literal bytes of an answer with one code and one alternate: that address and port come back exactly when the code is 300 and the port is not 0, and otherwise null |
| `TurnAnswers.RedirectIff` | src/werift/turnRedirect.js:36-48 | the verdict is a redirect to an address and port exactly when the last ERROR-CODE says 300, the last IPv4 ALTERNATE-SERVER of 8 bytes gives them, and the port is not 0 |
| `TurnRedirect.DecodeIffEncoding` | src/werift/turnRedirect.js:28-46 | bytes decode to a list exactly when they are its encoding, whatever the padding bytes, so no two lists share one |
| `TurnRedirect.CarriesIffDecodes` | src/werift/turnRedirect.js:22-25 | a message carries a list exactly when its header answers the request and the rest decodes to the list |
| `TurnRedirect.HeaderTests` | src/werift/turnRedirect.js:22-25 | the integer reads of the source accept exactly the 20 bytes of the grammar's header |
| `TurnRedirect.OutcomeIsTheVerdict` | src/werift/turnRedirect.js:46-48 | what the loop leaves is the verdict on whatever usable list the message carries |
| `TurnRedirect.HeaderCheckIsUnreachable` | src/werift/turnRedirect.js:28-29 | helper: wherever a list of attributes ends inside an aligned message, another attribute header fits |
| `TurnRedirect.ReadAttribute` | src/werift/turnRedirect.js:29-44 | the loop body reads in bounds for every byte string and moves the offset forward |
| `TurnRedirect.ParseAttributes` | src/werift/turnRedirect.js:26-48 | the loop ends for every aligned message and computes the outcome of decoding; its offset stays a multiple of four, so the header check at line 29 never fires |
| `TurnRedirect.Advance` | src/werift/turnRedirect.js:28-45 | helper: a round reads one attribute more, or there is nothing usable |
| `TurnUrl.TargetIffMatch` | src/werift/turnRedirect.js:12-19 | reading without backtracking returns a target exactly when the expression can match in some way with these groups and the checks on host and port pass; a URL has at most one |
| `TurnUrl.RewrittenNamesAlternate` | src/werift/turnRedirect.js:97-106 | a rewritten URL is again a TURN URL, naming the alternate with the query of the original; without a redirect the URL is kept |
| `TurnUrl.ResolveKeepsServers` | src/werift/turnRedirect.js:97-107 | a server's URLs keep form, number and order; entries that are not TURN URLs are unchanged, and every other one names its own target or the alternate of its own host and port, with its own query |
| `TurnUrl.RedirectIsUsable` | src/werift/turnRedirect.js:39-48 | every alternate the parser yields has four address bytes and a port between 1 and 65535 |
| `TurnUrl.RewrittenText` | src/werift/turnRedirect.js:104 | the text of a rewritten URL: the four numbers in the order of the bytes, the port, the query |
| `TurnUrl.UrlsAreRead` | src/werift/turnRedirect.js:12-19 | helper: scheme and query are matched in any case, and the port is 3478 when none is given |
| `TurnUrl.UrlsAreRefused` | src/werift/turnRedirect.js:14-15 | helper: a URL with a path or an IPv6 host is left alone |
| `Discovery.WriteEncapsulated` | src/datatypes/compiler.js:14-23 | the buffer holds the length and the payload at the offset and is otherwise unchanged; a payload over 65535 bytes is a RangeError |
| `Discovery.CreatePacketBuffer` | src/datatypes/compiler.js:24-29 | the buffer sized beforehand is filled exactly with the encoding |
| `Discovery.SizeIsLength` | src/datatypes/compiler.js:24-29 | helper: the size computed beforehand is the number of bytes written |
| `Discovery.ReadOwnEncoding` | src/datatypes/compiler.js:7-13 | decoding an encoded packet gives it back and has read every byte |
| `Discovery.ReadMessageFrame` | src/datatypes/protocol.json:96-127 | for any outer length and any count, the packet and the size that are read |
| `Discovery.PrepareSecurePacket` | src/signalling/lan.js:17-24 | checksum then encryption of the encoded packet, or the RangeError |
| `Discovery.ProcessSecurePacket` | src/signalling/lan.js:26-51 | each exception under its own condition, and otherwise what the plaintext parses to |
| `Discovery.SecureRoundTrip` | src/signalling/lan.js:17-51 | receiving what was prepared gives the packet back for every packet, never touched by the recovery |
| `Discovery.RecoveryIsExact` | src/signalling/lan.js:41-48 | exactly what arrives of a message frame for any outer length and any count up to the data's length |
| `Discovery.AnswerRecoveredIff` | src/signalling/lan.js:41-48 | a NUL-free answer arrives whole exactly when its count takes in the 16 bytes of its prefix |
| `Discovery.AppendedFramesStayOut` | src/signalling/lan.js:45-47 | when whole frames follow, the result is the first frame's data as it counts it |
| `Discovery.FrameHasZero` | src/datatypes/protocol.json:17-33 | helper: every encoded frame contains a zero byte |
| `Discovery.MessageLayout` | src/datatypes/protocol.json:96-127 | the offset, width and byte order of every field of a discovery message, with the data at 32 |
| `Discovery.OtherLayouts` | src/datatypes/protocol.json:50-95 | the same of requests and responses |
| `Discovery.PrefixIsText` | src/signalling/lan.js:43 | helper: the prefix that is recovered is the text CONNECTRESPONSE and a space |
| `Messages.RoundTripIffPlainType` | src/signalling/messages.js:46-54 | writing and reading restores a signal, for every id and every data string, exactly when its type has no space |
| `Messages.ReadThenWrite` | src/signalling/messages.js:46-54 | helper: a message that has three parts and a canonical id is restored |
| `Messages.ReadThenWriteIff` | src/signalling/messages.js:46-54 | reading and writing restores a message exactly when it has three parts and its id is in canonical form |
| `SdpIdentity.ExtractFingerprints` | src/signalling/sdpIdentity.js:13-20 | the loop collects the fingerprints of all lines in order |
| `SdpFingerprints.FingerprintIff` | src/signalling/sdpIdentity.js:16-17 | a line yields an algorithm and a digest exactly when it is the prefix, the algorithm, some spaces, and the whole digest up to the next space or the end |
| `SdpFingerprints.WhatSeparates` | src/signalling/sdpIdentity.js:16 | helper: the characters that separate words are the white space of ECMAScript |
| `SdpFingerprints.PrefixesIff` | src/signalling/sdpIdentity.js:54-56 | helper: what an identity line and a media line are |
| `SdpIdentity.AttachIdentity` | src/signalling/sdpIdentity.js:41-61 | no fingerprint is an exception; otherwise the assertion replaces any other, before the first media line |
| `SdpIdentity.VerifyServerIdentity` | src/signalling/sdpIdentity.js:65-87 | succeeds exactly for an SDP with one assertion of the default protocol whose valid token accepts a detached signature over the fingerprints of that SDP, and returns the SDP without it |
| `SdpIdentity.OneAssertion` | src/signalling/sdpIdentity.js:51-61 | the result has exactly one identity line, before the first media line if any, the same fingerprints, and the other lines in order |
| `SdpIdentity.ReplacingIff` | src/signalling/sdpIdentity.js:51-61 | attaching a second identity, by any signer, equals attaching only the second, exactly without a stray carriage return or with a single line |
| `SdpIdentity.RelineIff` | src/signalling/sdpIdentity.js:51-61 | the same of any two assertion lines |
| `SdpIdentity.ResplitLines` | src/signalling/sdpIdentity.js:53-60 | how the joined result splits again, for every mix of line breaks |
| `SdpIdentity.ReattachingIff` | src/signalling/sdpIdentity.js:51-61 | with a deterministic signer, attaching again equals attaching once, exactly without a stray carriage return or with a single line |
| `SdpIdentity.StrayExampleFails` | src/signalling/sdpIdentity.js:53-60 | a text with a fingerprint, a line feed and a stray carriage return, on which every two honest identities break it |
| `SdpIdentity.AttachedIsVouched` | src/signalling/sdpIdentity.js:28-87 | what an acceptable identity attaches is accepted by verification |
| `SdpIdentity.VerifyingRestoresIff` | src/signalling/sdpIdentity.js:83-86 | verification returns the original text exactly when it had no assertion, a carriage return before every line feed, and no stray carriage return |
| `SdpIdentity.SplitDetached` | src/signalling/sdpIdentity.js:78-80 | three parts with an empty middle are exactly a detached signature |
| `SdpIdentity.ChompedFingerprint` | src/signalling/sdpIdentity.js:16 | a carriage return at the end of a line is not part of its fingerprint |
| `SdpLines.SplitJoinLf` | src/signalling/sdpIdentity.js:54-60 | joining with line feeds and splitting again drops one final carriage return from every line but the last |
| `SdpLines.SplitJoinCrLf` | src/signalling/sdpIdentity.js:54-60 | joining with CRLF and splitting again gives the lines back |
| `SdpLines.JoinSplitCrLfIff` | src/signalling/sdpIdentity.js:65-86 | splitting and joining with CRLF gives a text back exactly when every line feed in it has a carriage return before it |

## Left out

- Sockets, HTTP, event emitter internals and timers as clock time: they are nondeterministic steps. `exchangeOffer` is one await that yields an answer, an error or an abort; its decision to trust a key is not modelled.
- WebRTC, ICE, DTLS, SCTP and the two backends: only peer state, channel state and ordered delivery are modelled.
- AES, HMAC, ES384, JWT, base64 and JSON: functions of `Discovery.Crypto` and `SdpIdentity.Scheme`, with the axioms listed above.
- The SDP and candidate text in signals, and the reports to `error` listeners: signals are recorded by kind, id and code. Fields that nothing else reads (`running`, `responses`, the ping interval) are absent.
- An exception from reading `localDescription` before the answer is handed to `respond`: only `respond` itself throws there.
- The fingerprint of the key that `verifyServerIdentity` returns: the token stands for the key in it.
- SdpIdentity.VerifyingRestoresIff: speaks of the text that verification returns; `AttachedIsVouched` and the contract of `VerifyServerIdentity` say that it is returned.
- Messages.FromString: tokens that are not plain decimals, among the literals that `BigInt` reads (hexadecimal, the empty string), are left to the `literal` parameter.
- Discovery.ReadInner: bytes stand for UTF-8 strings, so the replacement of malformed UTF-8 is not modelled; bytes that follow a frame are ignored as the source does.
- Delivery.Fifo: is about an open receiving connection; what one that was closed in the middle of a message does with the rest is `Transport.ClosedMidMessage`.
- TurnUrl.ParseTurnUrl: an argument that is not a string, and a server object's other fields, are not modelled; `probeTurnAlternate` is the `probe` parameter.
- TurnRedirect.ReadAttribute: the body of the loop is a method of its own, so its offset, code and alternate are returned instead of assigned in place.
- Ports and addresses of peers found by discovery, advertisement contents, ICE server validation, backend selection, socket binding and debug output: plumbing.
