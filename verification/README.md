# Verified model of the Legio overlay

Legio is a peer-to-peer overlay. Every node floods signed link states over its channels,
merges what it receives into a graph, computes a next-hop table from that graph, and uses
the table to forward messages for other nodes. User broadcasts travel by a second flood.
This project models those parts in Dafny and proves what they keep and what they achieve.

`dafny verify dfyconfig.toml` checks everything. Nothing here executes the original program.

## How the model is laid out

| files | what they hold |
|---|---|
| `Sequence.dfy` | 32-bit sequence numbers, their comparison, and the filter on arrivals |
| `LinkState.dfy`, `LinkStateRuns.dfy`, `Merge.dfy` | one node's graph as a value: its operations, what every run keeps, announcement accounting, the cached table, merging in any order |
| `BinaryHeap.dfy`, `Paths.dfy`, `Vertices.dfy`, `WrittenSearch.dfy` | the next-hop computation on vertex objects: the priority queue, walks and distances, the computation in its intended reading and as written |
| `GraphObjects.dfy`, `RoutingObjects.dfy`, `TransportObjects.dfy` | the classes that update their fields in place, each method proved against the value model |
| `ObjectNetworks.dfy` | what one object hands to its channels, taken in by another: the steps the networks are made of |
| `Flood.dfy` | both flooding protocols at once, as a machine over nodes, channels and copies in flight |
| `StateNetwork.dfy`, `Convergence.dfy` | networks of link-state nodes; each origin's announcements refine the flood |
| `UserBroadcast.dfy` | networks of transports; each source's broadcasts refine the flood |
| `Forwarding.dfy`, `EndToEnd.dfy` | hop-by-hop forwarding, and the path from flooded states to delivered messages |
| `Wire.dfy`, `StateCodec.dfy` | host byte order, message and state formats, with the reader and writer objects |
| `Base64.dfy`, `PackedStrings.dfy` | text forms of binary strings, and zero-terminated strings |
| `Scheduler.dfy` | timed tasks |
| `Common.dfy` | `Option`, `Result`, one lemma on sets, and the sizes that limit a message |

How they fit together: `GraphObjects.Graph` and `TransportObjects.Transport` tie the mutable
objects to values (`LinkState.Local`, `UserBroadcast.Peer`), and `ObjectNetworks` what one
object hands out to what another takes in. A network is a sequence of such values plus a
multiset of copies in flight. Each step of a network is a step of one origin's
flood, so the flood's coverage, cost and termination results carry over. `EndToEnd` then puts
convergence, table coherence and shortest paths together into delivery.

## Code and comments

Where the code departs from its comments or from the standard it follows, the code is
modelled as it is, and a result says exactly when it does what was meant.

* `src/impl/graph.cpp:244` tests the next hop of the vertex being visited. As written the
  table is always "each neighbour by itself" (`CachedTable.DirectTableAlways`,
  `WrittenSearch.ComputeRoutingTable`), and `Forwarding.DirectIsShortestExactly` says when that
  is a shortest-path table: if and only if everything reachable is a neighbour. Three nodes in a
  row are a graph where it is not (`Forwarding.RowTableIsNotShortest`). The comment at line 220
  names Dijkstra's algorithm, which asks for the neighbour's next hop;
  `Vertices.ComputeShortest` is that reading and yields shortest paths.
* `src/impl/routing.cpp:162` looks up the destination where its comment speaks of the next
  hop. On correct tables it finds a channel if and only if the destination is one hop away
  (`Forwarding.WrittenLookupReachesOnlyNeighbors`), and it differs from the reading of the
  comment exactly for reachable destinations two or more hops away
  (`Forwarding.LookupsDifferExactly`); `Forwarding.RowLookupFails` gives a row of three nodes
  with shortest-path tables where it drops what the next hop would deliver. On the tables as
  written the two lookups agree (`Forwarding.DirectLookupsAgree`), so in the code as a whole
  the table already cuts off what is not a neighbour
  (`Forwarding.WrittenReachesOnlyNeighbors`, `Forwarding.RowIsCutOff`). `Forwarding.Arrives` is
  about both lines read as intended.
* `src/impl/message.cpp:76-77` throws for a body over 65535 bytes, which is a state of more than
  1983 neighbours or a longer payload. `broadcastState` and `broadcast` have taken a number by
  then. `LinkState.ShapeKeptExactly` shows that a step of the graph keeps its shape if and only
  if no such exception occurs, `LinkState.BrokenExactly` what else it leaves,
  `LinkState.BrokenLeavesHalf` what an unknown sender is left
  with, and `LinkState.OneTooMany` that a Hello of a 1984th neighbour is such a step.
  `UserBroadcast.OversizedTakesANumber` is the same for user broadcasts.
* `src/impl/transport.cpp:42-49` numbers messages to single nodes from the counter of the
  broadcasts, and line 58 filters both with one memory. So a message that arrives before an
  earlier broadcast makes its receiver reject that broadcast and not relay it:
  `UserBroadcast.LetterCutsOff` is a run of three nodes in which one never hears of a
  broadcast although nothing is lost. `UserBroadcast.CoversExactly` shows that a new broadcast
  reaches everyone if and only if none overtook it.
* `src/impl/message.hpp:108` compares with a cut-off one below that of section 3.2 of RFC 1982.
  `Sequence.WindowIsMaximal` gives the exact window, `Sequence.AntisymmetryExact` the three
  distances at which both orders of the arguments say "older".
* `src/binary.cpp:165-172` writes as many bytes as a partial group has digits, one too many.
  `Base64.RoundTripExactly` shows that the round trip holds exactly for lengths divisible by 3.
* `src/binary.cpp:143-144` does not step over a space. `Base64.HangsExactly` characterises the
  texts on which decoding does not return; in the model such a call has the outcome `Hangs`.

## What the model takes for granted

* Identifiers and key-agreement keys are only compared, so they are numbers. On the wire an
  identifier has 33 bytes, so there are 256^33 of them there (`Wire.Id`); encoding, decoding,
  signing and verifying are the functions of `Wire.Scheme`, of which only `Wire.Sound` is
  assumed: what was encoded decodes, and what a key pair signed verifies under its own
  identifier. `Wire.SomeSchemeIsSound` exhibits a scheme that meets this.
* Nobody else signs for the local node. A state that carries the local identifier is an echo:
  it has the local key and is not newer than the local announcement
  (`LinkState.Receivable`, `LinkState.Possible`). In `StateNetwork` this is proved, not assumed
  (`StateNetwork.EchoIsStale`).
* The results about the shape of the graph, the accounting of announcements, merging and
  networks of nodes are about runs in which no announcement exceeds what a message can carry
  (`LinkState.Throws`). Readiness of the local vertex, coherence of the table and the methods
  of the classes are about all runs, exceptions included, and so is everything about user
  broadcasts.
* In a network, a copy is read while its number is within the comparison window of the number
  its reader holds (`StateNetwork.Allowed`, `UserBroadcast.Allowed`).
* Each callback is one atomic step. Which channels are open is decided by the environment.
* Ties in the priority queue are broken by object addresses, which are arbitrary; a run is given
  one table computation for each step, so they may be broken differently every time.
* `StateNetwork.Sys.book` and `rows`, `UserBroadcast.Sys.clock`, `numbers`,
  `held`, `rows` and `took`, the
  `Tally` of a flood and the logs of `BinaryHeap.PriorityQueue` are history: they record what happened and influence nothing.

## Model

| member | source | states |
|---|---|---|
| Sequence.CompareExact | src/impl/message.hpp:105-112 | for true counters at most one turn apart, comparing their low 32 bits gives the true order if and only if the distance is in -(2^31+1) .. 2^31-2 |
| Sequence.WindowIsMaximal | src/impl/message.hpp:105-112 | an interval of distances around zero is compared correctly throughout if and only if it lies within that window |
| Sequence.AntisymmetryExact | src/impl/message.hpp:105-112 | swapping the arguments flips the answer except at exactly three distances |
| Sequence.FilterRefinesCounters | src/impl/transport.cpp:77-91 | on arrivals that stay within the window of the last accepted number, the filter decides exactly as a filter on unbounded counters |
| Sequence.AcceptedIncreases | src/impl/transport.cpp:77-91 | what the filter on true counters accepts is strictly increasing from its starting point, and only arrivals pass |
| Sequence.LargestIsMaximum | src/impl/transport.cpp:77-91 | the running maximum is an upper bound of the arrivals and the starting point and is one of them |
| Sequence.AcceptedEndsInMaximum | src/impl/transport.cpp:77-91 | whatever the order of arrival, the last number the filter on true counters accepts is the maximum |
| Sequence.LetsThroughAccepted | src/impl/transport.cpp:77-91 | on arrivals within the window the 32-bit filter lets through exactly what the filter on true counters accepts, wrapped, and stores the largest number, wrapped |
| Sequence.FilterAcceptsUpToMaximum | src/impl/transport.cpp:77-91 | so for any starting value and order of arrival within the window the 32-bit filter lets through a strictly increasing list of arrivals ending in the maximum, which it has stored |
| UserBroadcast.TransportFilters | src/impl/transport.cpp:77-91 | message by message, a transport's decisions and memory for a source are those of that filter, and no other source's memory changes |
| LinkState.BootShape | src/impl/graph.cpp:30-32 | a node started with neighbours that fit holds its own announcement number 0 with its key and neighbours, and has the shape all later states keep |
| LinkState.InsertResult | src/impl/graph.cpp:142-170 | what an accepted state of another node leaves, in closed form: the sender's vertex holds it, its neighbours are its edges, missing ends are entered, and the local vertex carries a fresh announcement exactly when the state was the sender's first or had a new key |
| LinkState.ReactShape | src/impl/graph.cpp:124-213 | every operation that ends without an exception keeps: the local vertex stores the node's last announcement under its own key, edges equal the stored state's neighbours, stateless vertices have no edges, and edges lead to known vertices |
| LinkState.RunShape | src/impl/graph.cpp:124-213 | the same for every reachable state of every run without exceptions |
| LinkState.ShapeKeptExactly | src/impl/graph.cpp:124-170 | an operation keeps that shape if and only if it does not announce more than 1983 neighbours |
| LinkState.BrokenExactly | src/impl/graph.cpp:124-170 | what the exception leaves, vertex by vertex: the number is taken, an unknown sender is entered without edges and a known one keeps its old state, changed neighbours are already the node's edges although it stores its last announcement, and all else is as before |
| LinkState.BrokenLeavesHalf | src/impl/graph.cpp:156-160 | the exception leaves an unknown sender entered with its state and without the edges it lists |
| LinkState.OneTooMany | src/impl/message.cpp:76-77 | a node of any shape with 1983 neighbours that gets one more throws, announces nothing, and has lost the shape |
| LinkState.CrowdedNodeThrows | src/impl/message.cpp:76-77 | a started node can have these 1983 neighbours |
| LinkState.TriesStayReady | src/impl/graph.cpp:124-161 | in every run, exceptions included, the local vertex has a state with the node's own key, on which the mutual recursion's end rests |
| LinkState.UpdateKeepsSelf | src/impl/graph.cpp:124-161 | one insertion advances the announcement counter by one when it provokes an announcement and not otherwise: announcements do not nest further |
| Announcements.RunBalanced | src/impl/graph.cpp:124-170 | in every state reachable without exceptions the announcement counter is, modulo 2^32, the number of vertices with a state plus accepted key changes plus neighbour events that changed an edge |
| Announcements.AnnouncementBound | src/impl/graph.cpp:124-161 | from whatever graph a node has when keys and neighbours become fixed, it announces itself at most once for each node it holds no state of |
| Announcements.AnnouncementsAfterSettling | src/impl/graph.cpp:124-161 | over the whole life of a node: after its neighbours and all keys have become fixed it announces itself fewer than n times |
| CachedTable.RunCoherent | src/impl/graph.cpp:172-213 | after every operation of any run, exceptions included, the cached table is one that a fresh computation on the current edges could give, even if every computation breaks ties in its own way |
| CachedTable.DirectTableAlways | src/impl/graph.cpp:215-262 | as written, the table of a started node is at all times n -> n for exactly its edges n other than itself, whatever exceptions occurred |
| Merge.InsertHoldsNewest | src/impl/graph.cpp:142-170 | an insertion keeps: for every other identifier the newest state received so far is stored |
| Merge.RunHoldsNewest | src/impl/graph.cpp:124-213 | so does every run of insertions and neighbour changes without exceptions |
| Merge.OrderDoesNotMatter | src/impl/graph.cpp:142-213 | two runs that bring in the same set of states, in any order and with any repetitions, end with the same stored state and the same edges for every other node |
| Merge.EndsWithNewest | src/impl/graph.cpp:142-213 | what such a run ends with: the newest state of each identifier and its neighbours as edges, and nothing for an identifier never seen |
| BinaryHeap.Push | src/impl/graph.cpp:239-247 | the heap gains the entry and nothing else, and an entry greater than the top leaves the top in place |
| BinaryHeap.Pop | src/impl/graph.cpp:252 | the heap loses its top and nothing else |
| BinaryHeap.TopIsLeast | src/impl/graph.cpp:239 | no entry is less than the top |
| BinaryHeap.PriorityQueue.Add | src/impl/graph.cpp:247 | the queue object gains the entry, and so does its log of pushes, which always equals what waits plus what was popped |
| BinaryHeap.PriorityQueue.Remove | src/impl/graph.cpp:252 | the queue object loses its top, which its log of pops gains |
| Labels.ImprovesOnlyOnce | src/impl/graph.cpp:241-249 | in the intended reading a neighbour passes the test exactly when it was never reached before |
| Labels.RelaxKeepsSearching | src/impl/graph.cpp:241-249 | following one edge keeps the search invariant: labels are true walks, visited and waiting vertices lie in two adjacent layers, visited vertices are fully expanded |
| Labels.LabelsAreShortest | src/impl/graph.cpp:236-253 | at the end every walk from a reached vertex is at least as long as the labels of its ends say |
| Labels.DoneIsShortest | src/impl/graph.cpp:215-253 | at the end every label is the exact hop distance, -1 exactly when unreachable |
| Labels.DoneGivesTable | src/impl/graph.cpp:255-258 | the table read off the labels has an entry for exactly the reachable other vertices, naming a neighbour that begins a shortest walk |
| Vertices.QueueSpansTwoLayers | src/impl/graph.cpp:236-253 | queued distances lie in {d, d+1} while a vertex at distance d is visited |
| WrittenSearch.WrittenQueueSpansTwoLayers | src/impl/graph.cpp:236-253 | the same of the code as written |
| Vertices.Follow | src/impl/graph.cpp:241-249 | one edge on the vertex objects: the neighbour is relabelled and pushed once under its new distance exactly when the test passes, nothing else changes, and the referenced top of the queue stays |
| Vertices.ComputeShortest | src/impl/graph.cpp:215-262 | intended reading, on any finite object graph and any tie-breaking: the result is a shortest-path table, every vertex ends with its exact hop distance, the reached vertices and no others were put on the queue, once each and under their distance, and all were taken off in ascending order; states and edges are untouched |
| WrittenSearch.ReplacedStep | src/impl/graph.cpp:242-246 | as written a neighbour passes the test exactly when the local vertex is being visited and the neighbour is another vertex |
| WrittenSearch.ComputeRoutingTable | src/impl/graph.cpp:215-262 | as written, on any finite object graph: the table is exactly the local edges by themselves, the local vertex ends at distance 0, the ends of its edges at 1 and all others unreached, and the queue is used in the same disciplined way for just these |
| GraphObjects.Graph.constructor | src/impl/graph.cpp:30-32 | a new graph object goes through the value model's start and hands exactly one announcement to the open channels; more neighbours than fit would throw here |
| GraphObjects.Graph.UpdateEdges | src/impl/graph.cpp:172-213 | the vertex's edges become the given neighbours, each edge leads to the very object entered for its end, known vertices stay the same objects, and the table is recomputed exactly when an edge changed |
| GraphObjects.Graph.BroadcastState | src/impl/graph.cpp:124-133 | takes in one announcement under the next number without provoking another, and hands it to every open channel; with more than 1983 neighbours it only takes the number and throws |
| GraphObjects.MessageOf | src/impl/state.cpp:31-40 | the message of an announcement is a state message of its node to everyone, with its number, its key and all its neighbours, and is read back as just that announcement |
| GraphObjects.FromMessageExactly | src/impl/state.cpp:42-64 | a message is read as a state exactly when it is a state message with a source, and then as its source's, with the number, key and neighbours it carries |
| GraphObjects.Graph.UpdateVertice | src/impl/graph.cpp:142-170 | the mutual recursion terminates, does what the value model says, returns true exactly for news, announces at most once, and throws exactly when that announcement does not fit, leaving what the value model says |
| GraphObjects.Graph.NotifyState | src/impl/graph.cpp:58-63 | a malformed state throws and changes nothing; a state that is news is relayed to every open channel but its own, after the announcement it provoked, and nothing else is sent; an announcement that does not fit throws before the relay |
| GraphObjects.Graph.NotifyNeighbor | src/impl/graph.cpp:70-76 | a change of neighbours announces the node exactly when it changed the local edges, and throws after changing them when the announcement does not fit |
| GraphObjects.Graph.NotifyHello | src/impl/graph.cpp:51-57 | a Hello of a node that is no neighbour makes it one through a known channel; then, and only then, the graph reacts and hands out what that change announces |
| RoutingObjects.Routing.AddChannel | src/impl/routing.cpp:36-53 | adds one channel and keeps every neighbour on a known channel |
| RoutingObjects.Routing.RemoveChannel | src/impl/routing.cpp:55-73 | removes the channel and exactly the neighbours reached through it; every neighbour on another channel stays there |
| RoutingObjects.Routing.AddNeighbor | src/impl/routing.cpp:75-84 | enters a neighbour and emits exactly when the channel is known and the neighbour was not |
| RoutingObjects.Routing.RemoveNeighbor | src/impl/routing.cpp:86-94 | removes a neighbour and emits exactly when it was reached through that channel |
| RoutingObjects.Routing.Broadcast | src/impl/routing.cpp:127-139 | the stream of a channel grows by the message if and only if the channel is known, open and not the one the message came from; every other stream stays as it is |
| RoutingObjects.ReceiversExactly | src/impl/routing.cpp:127-139 | who receives: exactly the known, open channels other than the one the message came from |
| ObjectNetworks.ReceiversAreTargets | src/impl/routing.cpp:127-139 | with a node's ports as its channels these are exactly the channels the flood relays a delivered copy to, and for its own message those it originates on |
| ObjectNetworks.StreamsAreCopies | src/impl/routing.cpp:127-139 | what is handed to one end of a channel is one copy in flight to the other end, and none where nothing was handed out |
| RoutingObjects.Routing.FindRoute | src/impl/routing.cpp:153-167 | the channel a destination gets as written: the destination's own, when the table has an entry for it |
| TransportObjects.Transport.CheckSequence | src/impl/transport.cpp:77-91 | passes exactly what is newer than the last accepted number of that source, and remembers exactly what passed |
| TransportObjects.Transport.Broadcast | src/impl/broadcastabletransport.cpp:30-33 | sends the payload, with the node as source and no destination, under the next number to every open channel and leaves the filter untouched; a payload over 65535 bytes throws after the number was taken, and nothing is sent |
| TransportObjects.Transport.Notify | src/impl/transport.cpp:31-40 | messages of other types or without a source change nothing; of the others, a broadcast that passes the filter is relayed and its body given to the callback as from its source, a direct message that passes is given decrypted and never relayed, and an unreadable one throws |
| TransportObjects.Transport.Incoming | src/impl/broadcastabletransport.cpp:35-52 | a broadcast is relayed, and delivered with its source and body, exactly when it passes the filter; a direct message is never relayed, is delivered with its source and what it decrypts to when it passes, and throws when unreadable, after its number was taken in |
| TransportObjects.HearAll | src/impl/broadcastabletransport.cpp:35-52 | over any list of arrivals, what the callback got as from a source is, in order, the bodies of that source's messages that the filter passed, decrypted if they were direct; and the filter's memory of the source is that of its arrivals alone |
| ObjectNetworks.HearsAnnouncement | src/impl/graph.cpp:58-63 | a graph object given what another's announcement handed out goes to what the value model attempts with just that announcement, neighbours included |
| ObjectNetworks.HearsBroadcast | src/impl/broadcastabletransport.cpp:30-52 | a transport given what another's broadcast handed out filters the number that was taken, and its callback gets the payload from the broadcasting node exactly when that passes |
| Flood.Coverage | src/impl/routing.cpp:127-139 | over fixed reliable channels and any order of delivery: once the origin has sent something new and none of it is in flight, every connected node holds the newest number, if none came to hold a number sent since without reading a copy |
| Flood.StepKeepsCovering | src/impl/routing.cpp:127-139 | the invariant per channel: the far end knows at least what the near end knows, or it is in flight to it |
| Flood.SendBound | src/impl/broadcastabletransport.cpp:35-52 | over any run, with losses and closed channels, one number costs at most 2E-n+1 copies when the origin records it and 2E-n+deg(origin) when it does not |
| Flood.SendBoundIsTight | src/impl/broadcastabletransport.cpp:30-52 | both bounds are reached: a run on two nodes with two channels meets each with equality |
| Flood.ExactCost | src/impl/broadcastabletransport.cpp:30-52 | on any connected network with reliable channels the last number an origin sends costs exactly 2E-n+1 copies by quiescence, and deg(origin)-1 more if and only if the origin took an echo, which it never does when it records its numbers |
| Flood.RunConserves | src/impl/routing.cpp:127-139 | over any run every copy of a number that was sent is still in flight or was consumed |
| Flood.ConsumingLowersMeasure | src/impl/graph.cpp:58-63 | every delivery and every loss lowers a lexicographic measure with natural components |
| StateNetwork.EchoIsStale | src/impl/graph.cpp:148-149 | whatever carries a node's own identifier in a network is not newer than what the node stores |
| StateNetwork.NextKeepsValid | src/impl/graph.cpp:124-170 | every step of a network keeps: each node stores announcements as they were made, and its own newest one |
| StateNetwork.MovesAreAttempts | src/impl/graph.cpp:58-76 | a step of a network changes one node, to what the value model attempts there without an exception, and enters in the book what that sends |
| StateNetwork.Refines | src/impl/graph.cpp:58-63 | each step of a network is, for each origin, one step of its flood or none |
| StateNetwork.BootedIsValid | src/impl/graph.cpp:30-32 | freshly started nodes form such a network |
| Convergence.StatesConverge | src/impl/graph.cpp:124-170 | once a node announced itself after the channels became fixed and reliable, and nothing of it is in flight, every connected node stores exactly its newest announcement |
| Convergence.GraphsAgree | src/impl/graph.cpp:124-213 | when all have announced themselves and all is quiet, any two nodes hold the same edges for every identifier |
| Convergence.AnnouncementSendBound | src/impl/graph.cpp:124-133 | over any run of a network, with losses, one announcement costs at most 2E-n+1 copies |
| Convergence.AnnouncementExactCost | src/impl/graph.cpp:124-133 | in a connected network with reliable channels a single announcement costs exactly 2E-n+1 copies |
| Convergence.HearingFillsGaps | src/impl/graph.cpp:148-160 | with fixed keys, a node answers news with an announcement exactly when it stored nothing of the sender |
| Convergence.HearingLowersMeasure | src/impl/graph.cpp:58-63 | as long as neighbours do not change, every copy heard or lost lowers a three-part measure, although hearing may set off new floods |
| Convergence.MeasureNatural | src/impl/graph.cpp:58-63 | the three parts are natural numbers, so the network falls quiet |
| UserBroadcast.Refines | src/impl/broadcastabletransport.cpp:30-52 | each step of a network of transports, in which sources also write to single nodes, is at most one step of its source's flood, whose origin records nothing, and none of any other source's |
| UserBroadcast.OversizedTakesANumber | src/impl/message.cpp:76-77 | a call of broadcast or send always takes a number, and sends nothing exactly when the body exceeds 65535 bytes |
| UserBroadcast.BroadcastsCover | src/impl/broadcastabletransport.cpp:30-52 | over fixed reliable channels, once a source has sent a broadcast and none of it is in flight, every other connected node accepted the source's newest broadcast last, from any starting number and however many calls failed, if no message to a single node overtook a broadcast of the run |
| UserBroadcast.BroadcastsCoverAlone | src/impl/broadcastabletransport.cpp:30-52 | if the source only broadcasts, what each such node has stored is that broadcast's sequence |
| UserBroadcast.OvertakenNeverTaken | src/impl/transport.cpp:55-91 | a broadcast that a message to a single node overtook there is never accepted there |
| UserBroadcast.CoversExactly | src/impl/transport.cpp:42-91 | on a connected, reliable network a new broadcast is accepted by every other node by quiescence if and only if no message to a single node overtook it at any of them |
| UserBroadcast.LetterCutsOff | src/impl/transport.cpp:42-91 | a run of three nodes in a row, without losses, in which a message to the middle node overtakes a broadcast and the last node never hears of it |
| UserBroadcast.NewestIsLastTaken | src/impl/broadcastabletransport.cpp:30-33 | the newest broadcast carries the last number the source has taken if and only if the numbers it took since are a multiple of 2^32, usually none |
| UserBroadcast.FreshIsValid | src/impl/broadcastabletransport.cpp:24-26 | transports just made, from any starting numbers, form a network these results apply to |
| UserBroadcast.BroadcastSendBound | src/impl/broadcastabletransport.cpp:30-52 | over any run, with losses, one broadcast costs at most 2E-n+deg(source) copies |
| UserBroadcast.BroadcastExactCost | src/impl/broadcastabletransport.cpp:30-52 | in a connected network with reliable channels a single broadcast that nothing overtook costs exactly 2E-n+1 copies, and deg(source)-1 more if and only if the source took its own echo |
| Forwarding.HopIsNearer | src/impl/routing.cpp:141-167 | intended readings: each hop lowers the distance to the destination by exactly one |
| Forwarding.Arrives | src/impl/routing.cpp:141-167 | a message for a destination d hops away is d-k hops away after k hops and arrives after d |
| Forwarding.VisitsDiffer | src/impl/routing.cpp:141-167 | it visits no node twice |
| Forwarding.UnreachableIsDropped | src/impl/routing.cpp:158-160 | what cannot be reached is dropped where it starts |
| Forwarding.WrittenLookupReachesOnlyNeighbors | src/impl/routing.cpp:153-167 | the lookup as written, on shortest-path tables: a message leaves a node if and only if its destination is one hop away, and then goes straight there |
| Forwarding.LookupsDifferExactly | src/impl/routing.cpp:162-166 | on shortest-path tables the lookup as written differs from that of its comment if and only if the destination is reachable and two or more hops away |
| Forwarding.RowLookupFails | src/impl/routing.cpp:162-166 | in a row of three nodes with shortest-path tables the lookup as written drops a message the next hop would deliver |
| Forwarding.DirectIsShortestExactly | src/impl/graph.cpp:215-262 | the table as written is a shortest-path table if and only if everything that can be reached is a neighbour |
| Forwarding.RowTableIsNotShortest | src/impl/graph.cpp:244 | in the row the table as written leaves out the far end, although it can be reached |
| Forwarding.DirectLookupsAgree | src/impl/routing.cpp:153-167 | on the tables as written the two lookups agree |
| Forwarding.WrittenReachesOnlyNeighbors | src/impl/routing.cpp:153-167 | the code as a whole as written: a message leaves a node if and only if its destination is one hop away, and then goes straight there |
| Forwarding.RowIsCutOff | src/impl/graph.cpp:215-262 | with the code as a whole as written, the ends of the row cannot reach each other although a path exists |
| EndToEnd.ShortestTableAlways | src/impl/graph.cpp:172-262 | with shortest-path computations, ties broken anew each time, the cached table of a started node is at all times a shortest-path table of the edges it then has |
| EndToEnd.RouterForStep | src/impl/graph.cpp:215-262 | whatever shortest-path tables the computations of one step came to, as `Vertices.ComputeShortest` gives them, the runs above have a computation that gives just these |
| EndToEnd.SettledTables | src/impl/graph.cpp:172-262 | in a settled network every node's table is a shortest-path table of one and the same graph |
| EndToEnd.HellosGreet | src/impl/graph.cpp:51-57 | once a Hello has come in at every port of a node, in any order, its neighbours are exactly the nodes at the far ends, each through a channel that leads there |
| EndToEnd.GreetedNetworkAnnouncesWiring | src/impl/graph.cpp:70-76 | if from some point of a run on every step of a node carries the far ends of its channels, as its Hellos leave it, and the node announced itself since, its newest announcement lists them |
| EndToEnd.EdgesAreChannels | src/impl/graph.cpp:124-213 | in a settled network with such announcements the edges of every node are its channels |
| EndToEnd.DeliversWhenWired | src/impl/routing.cpp:141-167 | with correct tables and channels a message takes exactly the hop distance, and what cannot be reached is dropped at once |
| EndToEnd.SettledNetworkDelivers | src/impl/routing.cpp:141-167 | in a settled, connected network whose nodes announced themselves since their Hellos were in, a message from any node to any other arrives over a shortest path of channels |
| EndToEnd.BootedTablesFit | src/impl/graph.cpp:30-32 | freshly started nodes satisfy what these results ask of the network they start from |
| Bytes.NetworkOrder16 | src/utils.cpp:23-45 | on hosts of either byte order, what is converted and stored is big-endian, and what is loaded and converted is what was sent |
| Bytes.NetworkOrder32 | src/utils.cpp:23-45 | the same for 32 bits |
| Bytes.BytesMean | src/utils.cpp:23-45 | the first byte on the wire is worth the most; in the memory of a little-endian host it is the last |
| Bytes.ShiftDivides | src/utils.cpp:23-45 | the parts a byte cuts a number into are its quotient and remainder by 256 |
| Bytes.NumbersMean | src/utils.cpp:23-45 | two and four bytes put together are worth their sum by powers of 256, the first the most |
| Wire.HeaderIsPortable | src/impl/message.cpp:81-94 | the eight header bytes do not depend on the host |
| Wire.SerializedIsLaidOut | src/impl/message.cpp:75-106 | at which place of a serialised message what stands: type, flags 1 and 2, length and sequence as big-endian numbers, the identifiers that are present, the body and the signature, which is of all before it |
| Wire.ParsesExactly | src/impl/message.cpp:41-65 | on any host, parsing gives a message if and only if the bytes at those places read as its fields, there are enough of them, its identifiers decode and its signature verifies; otherwise it throws |
| Wire.ParseIsPortable | src/impl/message.cpp:41-65 | hosts of either byte order read the same message, or both throw |
| Wire.ParseInvertsSerialize | src/impl/message.cpp:41-106 | for every body of at most 65535 bytes, parsing what was serialised gives the message back if it is genuine or has no source, and throws otherwise |
| Wire.SerializeInvertsParse | src/impl/message.cpp:41-106 | an accepted byte string serialises to the same bytes, on any host, if and only if its flags are at most 3 and its identifiers were canonical |
| Wire.RelaysChangeNothing | src/impl/routing.cpp:127-151 | any number of relays on hosts of either byte order passes a genuine message on unchanged |
| Wire.SignedIsAccepted | src/impl/message.cpp:62-73 | what another host of either byte order parses from a signed message is the message that was to be signed, with only source and signature set |
| Wire.SignKeeps | src/impl/message.cpp:67-73 | signing sets the source to the signer and the signature to that of all else, and keeps type, sequence, destination and body |
| Wire.SomeSchemeIsSound | src/impl/identifier.cpp:25 | what these results assume of encodings and signatures is met by a scheme, whose signatures verify for the signer only |
| StateCodec.BinaryReader.Read | src/binary.cpp:203-217 | returns the next bytes and moves past them, or throws and moves nothing, exactly when too few are left |
| StateCodec.BinaryWriter.Write | src/binary.cpp:242-246 | appends the bytes |
| StateCodec.ParseMessage | src/impl/message.cpp:41-65 | the parser that walks a reader over the bytes computes the value-level parse |
| StateCodec.SerializeMessage | src/impl/message.cpp:75-106 | the serialiser that appends to a writer computes the value-level form |
| StateCodec.ReadState | src/impl/state.cpp:42-64 | the loop over the body computes the value-level reading of a state |
| StateCodec.ToMessage | src/impl/state.cpp:31-40 | appends key and neighbours in some order, each neighbour once, and signs |
| StateCodec.StateIsLaidOut | src/impl/state.cpp:31-40 | a state message is of type 2 and its body is the 65 bytes of the key and then 33 bytes for each neighbour, and nothing else |
| StateCodec.ReadsExactly | src/impl/state.cpp:42-64 | a message reads as a state if and only if it is of type 2, has a source and a key, every whole piece of 33 bytes behind the key decodes, and the neighbours are what those decode to; otherwise it throws |
| StateCodec.DecodeInvertsEncode | src/impl/state.cpp:36-61 | identifiers written one after another are read back as the same set, whatever short rest follows |
| StateCodec.StateRoundTrip | src/impl/state.cpp:31-64 | a state of at most 1983 neighbours survives being sent to any host and read back; one with more always throws |
| Base64.EncodesByTheReference | src/binary.cpp:99-131 | encoding gives the groups of six bits of the input's bit string, the last filled with zeros, padded to a multiple of four characters when asked, as sections 4 and 5 of RFC 4648 describe, for both alphabets |
| Base64.AlphabetIsTable | src/binary.cpp:180-188 | each digit is written as the character of that place in the two tables of RFC 4648, written out |
| Base64.DigitExactly | src/binary.cpp:148-157 | a character is read as a digit if and only if it has that digit's place in either table |
| Base64.SextetsAreGroups | src/binary.cpp:103-129 | the shifts and masks on three bytes at a time cut the bit string into groups of six |
| Base64.ToBase64 | src/binary.cpp:99-131 | the encoder's loop computes that encoding |
| Base64.FromBase64 | src/binary.cpp:134-176 | the decoder's loops compute the value-level decoding, for every text |
| Base64.JoinsByTheReference | src/binary.cpp:134-176 | the digits read give the bytes of their bit string; a last group of fewer than four gives as many bytes as it has digits, filled with zeros |
| Base64.InvalidExactly | src/binary.cpp:138-160 | decoding throws if and only if the first character that is no digit is neither a space nor the padding character |
| Base64.DecodeOfEncode | src/binary.cpp:99-176 | decoding an encoding of b returns b, followed by one zero byte when the length of b is not divisible by 3 |
| Base64.RoundTripExactly | src/binary.cpp:99-176 | the round trip holds if and only if the length is divisible by 3 |
| Base64.IdentifiersRoundTrip | src/impl/identifier.cpp:25 | identifiers, of 33 bytes, survive being printed and read |
| Base64.HangsExactly | src/binary.cpp:138-160 | decoding fails to return if and only if a space precedes every other non-digit |
| PackedStrings.PackStrings | include/legio/binary.hpp:53-66 | the packing loop computes the packed form |
| PackedStrings.PackExactly | include/legio/binary.hpp:53-66 | each string is written with one zero behind it, in the order of the list |
| PackedStrings.UnpackStrings | include/legio/binary.hpp:68-82 | the nested loops compute the unpacked strings, also when terminators or strings are missing |
| PackedStrings.UnpackExactly | include/legio/binary.hpp:68-82 | whatever the bytes, what is read holds no zero and is their front, string by string; with fewer zeros than strings, the string after the last zero is the rest and those after it are empty |
| PackedStrings.UnpackInvertsPack | include/legio/binary.hpp:53-82 | unpacking gives the strings back if and only if none holds a zero |
| PackedStrings.PackInvertsUnpack | include/legio/binary.hpp:53-82 | packing gives the bytes back if and only if they hold exactly as many zeros as strings were asked for and end in one |
| Schedules.RunKeeps | src/impl/scheduler.cpp:34-64 | every run of scheduling, cancelling and executing keeps the accounting and the ordering of tasks |
| Schedules.ExactlyOneFate | src/impl/scheduler.cpp:34-64 | in every run each scheduled task is pending, has run or was cancelled: exactly one of them, once |
| Schedules.NoneEarly | src/impl/scheduler.cpp:57-59 | no task ran at a reading of the clock before its time |
| Schedules.NoneOvertaken | src/impl/scheduler.cpp:52-64 | of two executions the earlier had the smaller (time, number), or the later task was scheduled after the earlier one ran |
| Schedules.EqualTimesInOrder | src/impl/scheduler.hpp:81-89 | tasks of equal time run in the order they were scheduled |
| Schedules.EnqueuedRunInOrder | src/impl/scheduler.hpp:71-74 | tasks scheduled with non-decreasing times run in the order they were scheduled |
| Schedules.RunsTheFirst | src/impl/scheduler.cpp:57-63 | whatever waits when a task runs has a greater (time, number) |
| Schedules.DrainRunsAllDue | src/impl/scheduler.cpp:29-32 | with a clock that never goes back, `run` returns with every task executed that was due when it was called, and no other change |
| Schedules.DrainAscends | src/impl/scheduler.cpp:29-32 | the tasks one `run` executes are executed in ascending (time, number) |
| SchedulerObjects.Scheduler.Schedule | src/impl/scheduler.hpp:81-89 | enters the task under its time and a fresh number |
| SchedulerObjects.Scheduler.Cancel | src/impl/scheduler.cpp:47-50 | removes a pending task, and tells whether it was pending |
| SchedulerObjects.Scheduler.Dequeue | src/impl/scheduler.cpp:52-64 | takes the first task exactly when its time has come |
| SchedulerObjects.Scheduler.Run | src/impl/scheduler.cpp:29-32 | executes the callbacks of exactly the tasks the drained timeline lists, in its order |

## Left out

* Cryptography: AES-GCM, key agreement, signatures and hashes are behind `Wire.Scheme` and the `decrypt` parameter of `TransportObjects.Transport`; the layout of an encrypted body is part of that parameter.
* `Server`, `Networking`, `Peering`, WebRTC and WebSocket callbacks: their behaviour lives in libraries.
* `Node`, `Component`, the public wrapper and `peer/main.cpp`: dispatch and start-up.
* `RoutingTable` as a class: its entries are added once each, so it is a map.
* Mutexes and threads: callbacks interleave as whole steps.
* Hello messages in the network results: one hop, never relayed; their effect is a neighbour change (`GraphObjects.Graph.NotifyHello`).
* Lossy or closed channels in the coverage, convergence and delivery theorems, which assume reliable ones; safety, accounting, cost and termination results do not.
* How a message to a single node travels in `UserBroadcast`: it may be lost or arrive at any time; `Transport::send` as a method, whose encryption and route are parts of their own.
* `Routing::removeChannel` tells nobody that neighbours vanished; the network model takes any change of neighbours as a step of its own, whenever it becomes known.
* Networks after an exception: a node that announced more neighbours than fit has lost the shape the network results rest on (`LinkState.ShapeKeptExactly`), so they are about runs without one.
* The key of a node does not change in `StateNetwork`; key changes are covered for a single node by `Announcements.RunBalanced` and `Merge.OrderDoesNotMatter`.
* SchedulerObjects.Scheduler.Run: does not cover callbacks that schedule or cancel tasks while the loop runs, because the loop then need not end; their calls are steps of their own in the runs of `Schedules.Run`, which the results on tasks are about.
* The overflow of the task number after 2^31 tasks.
* Logging, hexadecimal text, hashing of binary strings, and the 8- and 64-bit readers and writers: easy members.
