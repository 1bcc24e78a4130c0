# A verified model of rndz

rndz introduces peers to each other: a rendezvous server observes the address each peer connects
from and passes it on, so that both sides can send at the same time and get through NAT. This
project models the three parts that carry that promise and proves what they keep.

**The TCP server** (`src/tcp/server.rs`). `TcpProtocol` is a transition system in which one event is
one stretch of a task between two points where another task can run: an await, or the taking of the
peer map's lock. Any number of handlers run, their queues hold at most ten requests, a handler can be
cancelled wherever it is, cloned map entries may be stale when they are used, and what clients send
is arbitrary unless a lemma says otherwise. The proofs are layered: `TcpTrace` (every message stems
from an accepted request and is unaltered), `TcpLedger` and `TcpFsyncs` (no message is duplicated or
lost unaccounted), `TcpRegistry` (the peer map against a plain log), `TcpProvenance` (where a
Redirect's address comes from, and that an Rsync is forwarded at most once), `TcpLimits` (what a
client that changes its id can bring about, each with its exact condition and a run), `TcpHistory`
(every part of a state told by the events that led to it), `TcpLiveness` (runs in which two clients
meet, and runs that show what is not promised even to polite clients). `TcpServer` is the same
server as objects whose methods update fields in place; each method is proved to take exactly the
step of the transition system that it models. `TcpWire` and `TcpClient` carry the guarantees through the byte
streams into the two client roles.

**The UDP protocol** (`src/udp/server.rs`, `src/udp/client.rs`). `UdpRegistry` ties the client map and
the datagrams sent to an independent account in terms of the log of requests and collections.
`UdpServer`, `UdpListener`, `UdpPoll` and `UdpConnector` are the imperative loops on an explicit
monotone clock; `UdpOutcome` tells what the connector comes to by what its sockets yield alone.
`UdpNetwork` puts servers, listeners and connectors on a network that loses,
duplicates and reorders. `KeepAlive` joins the listener's jittered pings to the server's collections;
the pings are counted on the clock that the server's log uses.

**The wire format** (`src/proto/rndz.rs` and the framing). `Wire` has the primitives, which follow the
Protocol Buffers Encoding guide, sections "Base 128 Varints", "Message Structure" and
"Length-Delimited Records". `Codec` states what parsing, sizing and printing compute and the laws
between them, `CodedStreams` the loops that compute it, `Framing` the 16-bit length prefix over a
stream that arrives in arbitrary chunks. One point differs from the guide's "Last One Wins" section,
and the model follows the code: a repeated oneof sub-message replaces the earlier one
(src/proto/rndz.rs:361-375), it is not merged into it.

`dafny verify dfyconfig.toml` checks the whole project.

## Conventions and assumptions

- Connections are numbered from 0; connection `c` has the id `c + 1` that `next_id` gave it.
- `accepted`, `spent`, `found`, `lost`, `log` and the tickets are history that no branch reads. A
  ticket is the index of the client request a message stems from.
- A socket address is the text it prints as, 1 to 58 bytes (an IPv6 address with scope id and port).
  Parsing of addresses is a parameter. The end-to-end client lemmas assume that it reads back the
  addresses the servers have observed in the run, as they printed them, and over TCP that it does not
  accept the empty string; nothing is assumed of any other text.
- Polite clients, where a lemma requires them, follow the shipped ones: one non-empty id per
  connection, no Fsync, an Rsync only for an id that an Fsync was received for. `Bye` with an empty id
  is also allowed, because the server's own reader makes one up when reading fails
  (src/tcp/server.rs:149-151). `TcpClient.ShippedRunIsPolite` shows that a run of
  shipped clients is polite, so that for them the discipline is a result, not an assumption.
- A ping's time stamp is taken after the send (src/udp/client.rs:288-292), so the spacing bound has a
  separate lag `e` besides the duration `d` of a pass; with `e` zero it is the plain 15 s + d.
- Forwarding at most once and live owners need no more than one id per connection, whatever else the
  clients send. With several ids on one connection both fail, and `TcpLimits` and
  `TcpRegistry.StaleIffRenamed` say exactly when: an entry outlives its owner exactly under a key that
  the owner was the last to register and has given up since, and an Rsync is forwarded again exactly
  when the handler it has reached has registered another key since and the named key is present.
  Client-sent Fsyncs are counted as such in `TcpFsyncs.FsyncConservation`.
- What the sockets do is a parameter wherever a loop depends on it: the chunks a stream arrives in, how
  many reads are over in time, which write fails and after how many bytes, what each poll and recv
  yields, and every reading of the clock.

## Model

| member | source | states |
|---|---|---|
| TcpProvenance.RedirectProvenance | src/tcp/server.rs:202-294 | in every interleaving with polite clients, a Redirect with an address that reaches connection c names an id that an Isync under c's own id asked for, and carries the observed address of a connection that registered under that id |
| TcpProvenance.RedirectedToTarget | src/tcp/server.rs:265-294 | if every Isync under an id names one target, clients with that id are redirected to that target only |
| TcpProvenance.ForwardedStops | src/tcp/server.rs:269-281 | with one id per connection, an Rsync that was forwarded names the id of the handler it has reached, so that handler does not forward it |
| TcpProvenance.ForwardedAtMostOnce | src/tcp/server.rs:265-293 | with one id per connection and otherwise arbitrary clients, no Rsync is forwarded twice over a whole run, despite stale clones and replaced entries |
| TcpProvenance.PoliteForwardedAtMostOnce | src/tcp/server.rs:265-293 | in particular with polite clients |
| TcpLimits.ForwardedAgainIff | src/tcp/server.rs:265-293 | with arbitrary clients, a forwarded Rsync that comes up for handling is for a handler that has registered the key it names, and is forwarded again if and only if that handler has registered another key since and the log has the named key present |
| TcpLimits.ForwardedAgainAndAgain | src/tcp/server.rs:282-288 | for every n a run in which one connection, having pinged under two ids, has its Rsync forwarded to its own queue n times |
| TcpLimits.StaleEntry | src/tcp/server.rs:130-134 | a run of eleven events after which an entry is in the map whose owner is gone |
| TcpLimits.RunNamed | src/tcp/server.rs:202-203 | in every run a handler's peer_id is the key it registered last |
| TcpProvenance.ForwardsIffSending | src/tcp/server.rs:282-289 | the forwarding branch is the one, and the only one, that leaves the handler sending that same request on |
| TcpProvenance.RegistersOwnId | src/tcp/server.rs:202-203 | with one id per connection a connection is registered under that id only, and it is its peer_id from then on |
| TcpTrace.NextTraced | src/tcp/server.rs:141-294 | every step keeps every queued, pending and written message traced to one accepted request, unaltered |
| TcpTrace.RunTraced | src/tcp/server.rs:141-294 | the same in every reachable state with arbitrary clients; every cloned entry describes the connection it feeds |
| TcpTrace.RedirectFaithful | src/tcp/server.rs:269-276 | the address answered to an Rsync is that of a connection that registered as its sender |
| TcpHistory.QueueIs | src/tcp/server.rs:83-173 | every queue is first in, first out: what readers and handlers have put on it is what its handler has taken and then what it holds; once the receiver is dropped it is empty for good |
| TcpHistory.PhaseIs | src/tcp/server.rs:122-173 | in every run a handler is live exactly if none of its steps was a cancellation, a Bye or a request without a command; it is past the conditional remove, and its receiver dropped, exactly if those steps have been taken |
| TcpHistory.SendToDropped | src/tcp/server.rs:249-288 | a send to a connection whose receiver was dropped is over at once: the request is discarded, no queue changes, the handler goes on |
| TcpHistory.SendToOpen | src/tcp/server.rs:249-288 | any other send is over exactly when the queue holds fewer than ten, and puts the request last |
| TcpHistory.LogIs | src/tcp/server.rs:130-253 | the log the registry results speak of is one entry for each Ping handled, each registration after a send, and each conditional remove, in order |
| TcpHistory.AcceptedIs | src/tcp/server.rs:141-147 | what has been accepted is what the readers enqueued, in order |
| TcpHistory.ConnectionsAre | src/tcp/server.rs:77-96 | the connections are those accepted, in order, at the addresses they came from |
| TcpHistory.FoundIs | src/tcp/server.rs:238-239 | the count of found targets is the number of Isyncs handled while their target was in the map |
| TcpHistory.WrittenIs | src/tcp/server.rs:189-200 | what has been written to a connection is the replies whose writes were completed, in order |
| TcpHistory.HandleRouted | src/tcp/server.rs:159-173 | in every run a Ping makes its connection the registrar of the id and leaves a Pong to write; an Fsync is to be written as it is; a Bye or an absent command ends the handler, and nothing else does |
| TcpHistory.ReadyAgain | src/tcp/server.rs:159-257 | after a write, a registration or the send of an Rsync the handler is ready for the next request, after the send of an Fsync it registers the Isync's sender; no other handler's step moves it |
| TcpHistory.CanHappen | src/tcp/server.rs:83-173 | which steps are possible, told by the events so far |
| TcpLedger.RunBalanced | src/tcp/server.rs:83-289 | under every weighing of requests, what is queued, in hand, written and discarded adds up to what was accepted |
| TcpLedger.ExactlyOnce | src/tcp/server.rs:141-173 | an accepted request is in exactly one place at any time: no message is lost unaccounted or duplicated |
| TcpLedger.Conservation | src/tcp/server.rs:231-294 | accepted Rsyncs are the non-empty Redirects written, those pending and those discarded; accepted Isyncs likewise with Fsyncs and empty Redirects; no queue exceeds ten |
| TcpLedger.InHandNowhereElse | src/tcp/server.rs:159-173 | a request in one handler's hand is on no queue and in no other hand |
| TcpFsyncs.FsyncConservation | src/tcp/server.rs:231-263 | Isyncs whose lookup found a target, plus Fsyncs sent by clients, are the Fsyncs written, queued, in hand and discarded |
| TcpRegistry.RunMatchesLog | src/tcp/server.rs:130-221 | key k is in the map exactly when the last connection to register k has not been torn down with peer_id k, and the entry is then that connection's id, queue and observed address |
| TcpRegistry.EntrySurvives | src/tcp/server.rs:130-134 | nothing but its owner's teardown or another connection's registration under the key removes or alters an entry, in particular not an earlier connection's late teardown |
| TcpRegistry.OwnersAreLive | src/tcp/server.rs:130-134 | with one id per connection, whatever else is sent, every entry's owner has not been torn down |
| TcpRegistry.StaleIffRenamed | src/tcp/server.rs:130-134 | with arbitrary clients, a connection that is gone still has the entry under a key if and only if it was the last to register the key and the key is not its peer_id |
| TcpRegistry.IsyncRouted | src/tcp/server.rs:231-257 | a handled Isync goes as an Fsync with the sender's id and observed address to the target's last registrar, with the sender to be registered next, or is answered with an empty address when the log has no present target |
| TcpRegistry.RsyncRouted | src/tcp/server.rs:265-293 | an Rsync for the handler's own id is answered with the address of its sender's last registrar, any other is forwarded unaltered to the last registrar of the id it names, and without one nothing is sent |
| TcpRegistry.IsyncRegisters | src/tcp/server.rs:249-252 | after an Isync whose target was found, its sender is registered anew, later than the lookup, before its handler goes on, whatever happens in between, unless the connection ends |
| TcpLiveness.FastRsyncDropped | src/tcp/server.rs:249-292 | a polite run in which the target's Rsync comes back before the source is registered and is dropped, with nothing left under way to the source |
| TcpLiveness.HandlersStuck | src/tcp/server.rs:238-249 | a polite run that ends with two handlers sending to each other's full queues |
| TcpLiveness.StuckForGood | src/tcp/server.rs:83-249 | two such handlers stay so in every continuation in which neither connection ends |
| TcpLiveness.StuckIsStuck | src/tcp/server.rs:159-288 | no step of either handler, and no request of its client, is possible then but the end of the connection |
| TcpLiveness.Meeting | src/tcp/server.rs:202-294 | for any two ids and addresses a polite run in which the second client asks for the first and is written exactly its observed address |
| TcpLiveness.ReceiverGone | src/tcp/server.rs:122-253 | a polite run in which the target's receiver is dropped while the source's handler holds a clone of its entry: the Fsync is discarded and the handler goes on |
| TcpServer.Server.constructor | src/tcp/server.rs:65-69 | the server starts in the initial state of the transition system |
| TcpServer.Server.NextId | src/tcp/server.rs:72-75 | ids start at 1 and go up by one |
| TcpServer.Server.Accept | src/tcp/server.rs:77-96 | a connection gets the next id, an empty peer_id, an empty queue, and alters nothing else |
| TcpServer.Server.Enqueue | src/tcp/server.rs:141-157 | the reader appends the request to its own handler's queue |
| TcpServer.Server.Recv | src/tcp/server.rs:159-161 | the handler takes the oldest request off its queue |
| TcpServer.Server.InsertPeerstate | src/tcp/server.rs:202-221 | sets peer_id, replaces another connection's entry, keeps one's own; no other key changes |
| TcpServer.Server.HandlePing | src/tcp/server.rs:223-229 | registers the sender and then has a Pong to write |
| TcpServer.Server.HandleIsync | src/tcp/server.rs:231-257 | takes the lookup step, to a pending Fsync or an empty Redirect, without registering yet |
| TcpServer.Server.HandleRsync | src/tcp/server.rs:265-294 | takes the lookup step, to an answer, a pending forward or nothing |
| TcpServer.Server.Handle | src/tcp/server.rs:159-173 | the dispatch, including that Bye and an absent command end the handler |
| TcpServer.Server.Deliver | src/tcp/server.rs:249-288 | a send puts the request at the end of the receiver's queue, or discards it when the receiver is gone |
| TcpServer.Server.Send | src/tcp/server.rs:249-252 | when the send is over, the sender of an Isync is registered next; of an Rsync, nothing is left to do |
| TcpServer.Server.Register | src/tcp/server.rs:252-253 | the end of handle_isync registers the sender |
| TcpServer.Server.Write | src/tcp/server.rs:189-200 | the reply is appended to what the connection was written |
| TcpServer.Server.Stop | src/tcp/server.rs:125-128 | cancellation at any point discards what the handler had in hand and touches no map entry; TcpWire.TornWriteIsSilent covers the bytes of a write it cuts short |
| TcpServer.Server.Unregister | src/tcp/server.rs:130-134 | removes the entry under peer_id only if it carries this connection's id |
| TcpServer.Server.Drop | src/tcp/server.rs:122-139 | dropping the receiver discards its queue and closes it; TcpHistory.QueueIs and SendToDropped say what follows |
| TcpWire.ReplyIsShort | src/tcp/server.rs:179-276 | a response made from requests of at most 1500 bytes and printed addresses has at most 1566 bytes |
| TcpWire.NoTruncation | src/tcp/server.rs:189-197 | in every run the 16-bit length of every response is the length of its body |
| TcpWire.ClientReads | src/tcp/client.rs:168-174 | from any prefix of the bytes of its connection a client reads exactly the responses wholly inside it, unaltered and in order |
| TcpWire.TornWriteIsSilent | src/tcp/server.rs:189-200 | from a connection whose handler was cancelled in the middle of a write, after any number of bytes, the client reads exactly the responses written before |
| TcpWire.ReaderDelivers | src/tcp/server.rs:141-187 | what the reader gets out of any bytes has been parsed from a body of at most 1500 bytes, which the bounds above start from |
| TcpWire.ReadersDeliver | src/tcp/server.rs:141-157 | so every accepted request has, if each connection's came from its reader |
| TcpClient.ReadLoop | src/tcp/client.rs:192-222 | one Rsync per Fsync read, in order, up to the first Fsync with an unparseable address, which makes it return an error, or up to the first send that fails, at which it panics, however the stream is chunked |
| TcpClient.RsyncsExact | src/tcp/client.rs:193-218 | an Fsync is answered with an Rsync for its id, whatever the id, exactly as long as no Fsync up to it has an address that does not parse; nothing else is answered |
| TcpClient.WriteLoop | src/tcp/client.rs:176-190 | each command, and a Ping per timeout, goes out framed under the client's id, up to the write that fails, of which any part goes out |
| TcpClient.OutgoingExact | src/tcp/client.rs:176-190 | each command goes out under the client's id, and each timeout as a Ping |
| TcpClient.WrittenIsPrefix | src/tcp/client.rs:184-186 | the bytes written are a prefix of all there would be, with the frames before the failing write whole and as many bytes of that one as went out |
| TcpClient.ListenerIsPolite | src/tcp/client.rs:192-219 | what the listener sends keeps to the discipline that the provenance lemmas require |
| TcpClient.Connect | src/tcp/client.rs:124-141 | sends one Isync for the target and takes the address, or the right one of its errors, from the first response only |
| TcpClient.TargetExact | src/tcp/client.rs:132-141 | the first response decides, whatever ids it carries: a Redirect that parses, one that does not, any other response, none |
| TcpClient.ConnectReachesTarget | src/tcp/client.rs:124-146 | from the server's map to the initiator's socket in a polite run: the address connect arrives at is the observed address of a connection that registered as the target |
| TcpClient.ShippedRunIsPolite | src/tcp/client.rs:124-222 | a run in which every request is one that connect or the listener's loops send, given any prefix of the bytes the server has written to them so far, or the reader's Bye, is polite |
| TcpClient.ShippedConnectReachesTarget | src/tcp/client.rs:124-222 | the same guarantee for connect with no assumption on the clients but that they are the shipped ones |
| UdpNetwork.OfferedIsTargets | src/udp/server.rs:122-155 | over a lossy, duplicating, reordering network, an address a server offers to `a` under id `t` is one it saw on an Rsync that t's listener sent in answer to an Fsync for a, which a had asked for |
| UdpNetwork.RunKeeps | src/udp/server.rs:91-155 | in every run every response tells of a request its server saw, and every Rsync was preceded by an Fsync its sender heard |
| UdpNetwork.HandleGrounded | src/udp/server.rs:122-155 | every datagram sent on a request tells only of requests seen so far and the addresses they came from |
| UdpNetwork.ReceiveSends | src/udp/server.rs:91-155 | on each request the datagram its peer waits for is sent, with its ids and address |
| UdpNetwork.ListenAnswers | src/udp/client.rs:320-337 | a listener that hears an Fsync for it answers, whatever the source |
| UdpNetwork.Meeting | src/udp/server.rs:112-155 | for any two ids and addresses a run in which the connector is offered the address the listener's answer came from |
| UdpConnector.ConnectReachesTarget | src/udp/client.rs:160-175 | whatever its sockets do, the address connect arrives at is the target listener's, though connect never compares the id in the Redirect with its target |
| UdpConnector.Connect | src/udp/client.rs:118-199 | the outcome is that of the first acceptable Redirect in (round, poll, server) order; the failed servers are exactly those that denied the target by then; the rounds started are exactly those up to the answer's, or up to the first that finds all failed, or three, and in each an Isync went to each server not failed at its start |
| UdpOutcome.FailsIff | src/udp/client.rs:118-199 | connect takes an answer exactly if some socket yields one for its own id with an address that parses, under any id, in a round whose polls have not failed, from a server that has not said before that it does not know the target |
| UdpOutcome.TakesFirst | src/udp/client.rs:149-188 | it is the first one by round, poll and server; the servers marked failed are those that have said before it that they do not know the target; no later round is started |
| UdpOutcome.AsksExactly | src/udp/client.rs:128-140 | in each round started each server is asked once that has not said so in an earlier round, and no other; on failure all rounds were started or all servers have said so |
| UdpOutcome.SlotsExact | src/udp/client.rs:143-151 | what the loops walk along is exactly what is available, in order |
| UdpConnector.RunRound | src/udp/client.rs:143-195 | a round passes over all there is to read in it, or stops at the first acceptable answer |
| UdpConnector.OnePoll | src/udp/client.rs:144-194 | one poll: a failing poll, or all servers failed, ends the round; otherwise every ready socket is read once |
| UdpConnector.ReadReady | src/udp/client.rs:149-188 | reads the ready sockets in order, marks those that deny, skips foreign ids and unparseable answers, stops at an acceptable one; UdpOutcome says which those are |
| UdpConnector.SendsBounded | src/udp/client.rs:128-140 | over a whole connect each server gets at most three Isyncs, and none in a round that starts after it has denied the target |
| UdpConnector.FailedMeansDenied | src/udp/client.rs:177-182 | a server is marked failed exactly when it has answered with an empty address |
| UdpPoll.PollSockets | src/udp/client.rs:495-532 | for every set of failed servers, ready[i] holds exactly when socket i has not failed and its own descriptor reported POLLIN; the compacted index stays in bounds; an error only if the poll itself failed |
| UdpPoll.LiveSlot | src/udp/client.rs:500-525 | the compacted position of a live socket is the number of live sockets before it |
| UdpRegistry.RegistryRefinesLog | src/udp/server.rs:112-177 | k is in the map exactly when it has a touch with no later Bye from k and no later collection that found it expired, and it has the address and time of its latest touch |
| UdpRegistry.Routed | src/udp/server.rs:112-155 | what is sent on each request, told by the log alone: to whom, with which id, and with which address |
| UdpRegistry.SelfIsync | src/udp/server.rs:122-134 | a registered peer that asks for itself gets the Fsync where the log saw it before the request, and is known at the address of the request from then on |
| UdpServer.Server.HandlePing | src/udp/server.rs:112-120 | enters the sender and answers it |
| UdpServer.Server.HandleIsync | src/udp/server.rs:122-141 | looks up the target first, then enters the source only if it was found |
| UdpServer.Server.HandleRsync | src/udp/server.rs:143-155 | redirects the target to the sender, changing no entry |
| UdpServer.Server.HandleRequest | src/udp/server.rs:91-101 | the dispatch: the map and the datagrams sent for every command, including Fsync and an absent one |
| UdpServer.Server.Gc | src/udp/server.rs:162-177 | keeps exactly the entries touched within 60 s and schedules the next collection |
| UdpServer.Server.Run | src/udp/server.rs:73-89 | the loop's map, deadline, log and sends are those of the specification, for any inputs and clock readings; LogIsEntries and MapIsEntries say what they are |
| UdpServer.AfterIsLog | src/udp/server.rs:79-88 | in every run the map is the one its log accounts for |
| UdpServer.LogIsEntries | src/udp/server.rs:79-88 | the log is one entry for each request received and one for each collection, which takes place exactly when a check comes more than 60 s after the start or the last collection |
| UdpServer.MapIsEntries | src/udp/server.rs:79-177 | so the client map of every run is told by its inputs and the clock alone |
| UdpServer.IsyncEnters | src/udp/server.rs:126-129 | after a pass that received an Isync with a known target its sender is in the map at the request's address, unless that very pass collects 60 s later |
| UdpServer.SendsAreRouted | src/udp/server.rs:103-155 | what each pass adds to what has been sent is what the inputs so far account for |
| UdpServer.PassRouted | src/udp/server.rs:79-83 | in every run each pass sends what the log so far accounts for |
| UdpServer.RunTimes | src/udp/server.rs:85-87 | the next collection is never due before 60 s after the start, nor later than 60 s after the last reading |
| UdpServer.AgeBound | src/udp/server.rs:79-88 | at the end of every pass every entry was touched less than 120 s ago plus the duration of one collection |
| UdpServer.CollectionExact | src/udp/server.rs:166-174 | a collection removes exactly the entries not touched for 60 s, and `now - 60 s` is after the server's start |
| UdpListener.Loop.SendPings | src/udp/client.rs:284-294 | a pass pings exactly the servers whose turn is due, and stamps those |
| UdpListener.Loop.HandleRecv | src/udp/client.rs:307-347 | an Fsync for this listener is answered to its server and to its peer, a Pong is noted, an error marks the server, a foreign id is ignored; RsyncsOfPass says which datagrams those are |
| UdpListener.Loop.HandleReady | src/udp/client.rs:299-348 | the same for all ready sockets, in order, each Pong with its own reading of the clock |
| UdpListener.Loop.Run | src/udp/client.rs:277-352 | over any number of passes the ping times, failed servers, last Pongs and datagrams sent are those of the specification |
| UdpListener.PingsOfPass | src/udp/client.rs:284-294 | of all that is not an Rsync, a pass sends exactly one Ping to each server whose turn is due, failed or not |
| UdpListener.RsyncsOfPass | src/udp/client.rs:315-337 | for each readable socket that has not failed, an Fsync addressed to this listener, whatever its source, is answered by exactly one Rsync to the server and one to the peer if its address parses; no other Rsync is sent |
| UdpListener.PongOfPass | src/udp/client.rs:316-319 | the last Pong of a server is the clock reading at the latest Pong for this listener read from it |
| UdpListener.FailedIff | src/udp/client.rs:343-346 | a server has failed exactly if a recv has failed in some pass whose poll succeeded and reported its socket readable |
| UdpListener.FailedForGood | src/udp/client.rs:343-346 | once a recv on a server's socket has failed it is never read again |
| UdpListener.PingSpacing | src/udp/client.rs:282-294 | successive pings to a server are more than 10 s and less than 15 s plus a pass apart |
| UdpListener.NextPing | src/udp/client.rs:282-294 | a loop that keeps running pings again within that time |
| KeepAlive.DeliveredSoon | src/udp/client.rs:284-294 | if no three pings in a row are lost, after any moment a ping reaches the server within 60 s |
| KeepAlive.SurvivesCollection | src/udp/server.rs:166-174 | a collection leaves a listener that keeps pinging in place |
| KeepAlive.NeverDropped | src/udp/server.rs:162-177 | once registered, such a listener stays registered through every request and collection |
| KeepAlive.ListenerStays | src/udp/server.rs:79-88 | the same for the server's loop: a listener in the map after some pass is in the map after every later one |
| Codec.RequestRoundTrip | src/proto/rndz.rs:355-445 | parsing what the writer emits gives the request back, with absent command, empty id and empty sub-message included |
| Codec.ResponseRoundTrip | src/proto/rndz.rs:973-1043 | the same for responses |
| Codec.MergeConcat | src/proto/rndz.rs:355-382 | if `a` parses alone, merging `a + b` is merging `a` and then `b`, for every message type |
| Codec.RequestLastWins | src/proto/rndz.rs:355-382 | parsing succeeds exactly on well-formed fields with acceptable contents, and gives the last id and the last command, a repeated command replacing the earlier one, undisturbed by unknown fields; RequestTags fixes the numbers |
| Codec.ResponseLastWins | src/proto/rndz.rs:973-994 | the same for responses |
| Codec.IdLastWins | src/proto/rndz.rs:680-692 | the same for Isync and Rsync: the last id |
| Codec.PairLastWins | src/proto/rndz.rs:1419-1434 | the same for Fsync and Redirect: the last id and the last address |
| Codec.RequestTags | src/proto/rndz.rs:356-379 | after anything that parses, a field under tag 10 sets the id, under 18 the command Ping, 26 Isync, 34 Fsync, 42 Rsync, 50 Bye, in place of what was there |
| Codec.ResponseTags | src/proto/rndz.rs:974-991 | the same for responses: 10 the id, 18 Pong, 26 Redirect, 34 Fsync |
| Codec.SubMessageTags | src/proto/rndz.rs:1420-1431 | the same for sub-messages: 10 the id, 18 the address |
| Codec.RequestBytes | src/proto/rndz.rs:420-445 | what the writer emits for each request, byte by byte |
| Codec.ResponseBytes | src/proto/rndz.rs:1024-1043 | what the writer emits for each response, byte by byte |
| Codec.MergeIsFold | src/proto/rndz.rs:355-382 | merging is the fold of the tag match over the fields |
| Codec.RequestSizeExact | src/proto/rndz.rs:386-445 | compute_size is the number of bytes the writer emits |
| Codec.ResponseSizeExact | src/proto/rndz.rs:998-1043 | the same for responses |
| Codec.ReqBodySizeExact | src/proto/rndz.rs:696-712 | the same for each request sub-message |
| Codec.RespBodySizeExact | src/proto/rndz.rs:1438-1460 | the same for each response sub-message |
| Codec.PrefixTrueIffFits | src/proto/rndz.rs:416-440 | an emitted sub-message is read back whole if and only if it is below 2^32 bytes, the limit of the cached size |
| Codec.ParsedWeight | src/proto/rndz.rs:355-382 | the strings of a parsed request are together no longer than its bytes |
| CodedStreams.CodedInputStream.MergeFrom | src/proto/rndz.rs:355-382 | the loop over tags computes Merge, for any message's match on the tag |
| CodedStreams.ParseRequestBytes | src/proto/rndz.rs:355-382 | parsing a request from bytes |
| CodedStreams.ParseResponseBytes | src/proto/rndz.rs:973-994 | parsing a response from bytes |
| CodedStreams.ComputeRequestSize | src/proto/rndz.rs:386-418 | the accumulated size is the number of bytes the writer emits, and the cached size its low 32 bits |
| CodedStreams.ComputeReqBodySize | src/proto/rndz.rs:696-704 | the accumulated size of a sub-message is the number of bytes of its body |
| CodedStreams.ComputeRespBodySize | src/proto/rndz.rs:1438-1449 | the same for a response's sub-message |
| CodedStreams.CodedOutputStream.WriteRequest | src/proto/rndz.rs:420-445 | the writer appends the encoding to the stream |
| CodedStreams.CodedOutputStream.WriteResponse | src/proto/rndz.rs:1024-1043 | the same for responses |
| Wire.VarintSizeExact | src/proto/rndz.rs:395-411 | the varint size is exact across all ten length boundaries |
| Wire.VarintMeaning | src/proto/rndz.rs:395-411 | a varint has a continuation bit on every byte but the last, the least significant group first, and is the shortest of its value |
| Wire.ReadVarint64Exact | src/proto/rndz.rs:356-357 | the reader accepts exactly the varints of at most ten bytes below 2^64, with their value |
| Wire.FixedForm | src/proto/rndz.rs:376-378 | unknown fields of wire type 1 are eight bytes and of type 5 four |
| Wire.BadTag | src/proto/rndz.rs:376-378 | no other wire type, no field without a number, and no tag over 32 bits is read |
| Wire.LenFieldRoundTrip | src/proto/rndz.rs:420-440 | a length-delimited field is read back whole, whatever follows it |
| Wire.FieldPrefixStable | src/proto/rndz.rs:355-379 | bytes after a complete field do not change how it is read |
| Framing.FrameLosslessIff | src/tcp/server.rs:195-198 | the cast of the length to 16 bits loses nothing if and only if the body is below 65536 bytes |
| Framing.FrameIsBigEndian | src/tcp/client.rs:163-164 | the length comes first, in two bytes, the more significant one first |
| Framing.RequestLimit | src/tcp/server.rs:179-182 | the server takes a body of 1500 bytes and refuses a longer one |
| Framing.StopsAtError | src/tcp/server.rs:141-157 | a receive loop ends at the first frame over the limit or body that does not parse, whatever follows |
| Framing.PrefixSafe | src/tcp/client.rs:158-174 | from any prefix of a list of framed messages the receiver gets exactly the messages wholly inside it |
| Framing.RequestsPrefixSafe | src/tcp/server.rs:175-187 | the same for requests within 1500 bytes; all of them from all the bytes |
| Framing.ResponsesPrefixSafe | src/tcp/client.rs:168-174 | the same for responses below 65536 bytes |
| Framing.ByteStream.ReadExact | src/tcp/client.rs:170-172 | n bytes in order, however they were split into chunks, or None when fewer arrive |
| Framing.ByteStream.ReadBody | src/tcp/server.rs:175-184 | the length, the check against the limit, the body; the rest of the stream is left as it was |
| Framing.ByteStream.ReadReq | src/tcp/server.rs:175-187 | the next request of the stream as a whole, independent of chunks |
| Framing.ByteStream.ReadReqs | src/tcp/server.rs:141-157 | all requests before the first error and then a Bye, or those whose reads are over in time and no Bye, independent of chunks |
| Framing.ByteStream.ReadResp | src/tcp/client.rs:168-174 | the next response, independent of chunks |
| Framing.WriteReq | src/tcp/client.rs:158-166 | appends the framed encoding, with the length cast to 16 bits |
| Framing.SendResponse | src/tcp/server.rs:189-200 | the same for a response, whose id stays empty |

## Left out

- Liveness of the TCP matching: the Fsync is sent before the source is registered (src/tcp/server.rs:249-252), so a fast Rsync can find no source and be dropped (TcpLiveness.FastRsyncDropped; TcpRegistry.RsyncRouted says exactly when), and two handlers can wait on each other's full queues forever (TcpLiveness.HandlersStuck). Only safety and conservation are claimed.
- The reconnect machinery of the clients (condition variable and `Notify`), which depends on OS wake-ups.
- src/tcp/client_async.rs, which repeats the protocol and the framing of src/tcp/client.rs.
- Sockets, binding, reuse options, name resolution, NAT behaviour; a connected UDP socket is assumed to receive from its own server only, and receive buffers of 1500 bytes are not shown to be long enough.
- TcpServer.Server.Stop: the bytes of a response that a cancellation cuts short are not part of the state (TcpWire.TornWriteIsSilent shows that a client makes nothing of them); and cancellation is possible in every live stage rather than only when the reader ends or the handler fails, so every lemma covers more interleavings than the program has.
- TcpServer.Server.InsertPeerstate: `last_ping`, which is written and never read, and the panic of `peer_addr().unwrap()` on a connection that is already gone.
- TcpServer.Server.HandleIsync: the second panic of that kind, on printing the sender's address.
- TcpClient.ReadLoop: the channel to the write loop holds ten requests and a send waits while it is full; the model has the sends that succeed and the one that fails, not the waiting.
- UdpConnector.Connect: the value of the error (`last_error`) is one Failed outcome; errors in setting up the peer socket are one parameter.
- UdpNetwork.RunKeeps: a datagram once sent may be delivered any number of times to anyone who listens to that server, whatever address it was sent to, which covers more than the real network; where each datagram goes is in UdpRegistry.Routed.
- UdpListener.Loop.Run: the exit flag is the end of the given passes; the peer's copy of the Rsync is recorded as sent and its effect on firewalls is not modelled.
- CodedStreams.CodedInputStream.MergeFrom: unknown scalar and length-delimited fields are skipped and not kept for re-emission, and group wire types are rejected; the protobuf runtime is not part of this model, and its reading of over-long varints is taken to be the Encoding guide's.
- Codec.RequestRoundTrip: requires the sub-message to be below 2^32 bytes, the width of the cached size (Codec.PrefixTrueIffFits shows that limit is exact), and the id below 2^64, which is an assumption about the protobuf runtime's string lengths.
- Protobuf reflection, descriptors and accessors; logging, command line, examples and the build script.
