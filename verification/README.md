# A crash-fault DAG protocol

A fixed crowd of n peers builds a directed acyclic graph of vertices, one row per round. In each round a peer creates one
vertex that references every vertex it holds of the row before; it moves on once it holds 2f+1 vertices of its row, where
f = ceil(n/3 - 1). A vertex of another peer is admitted when it has 2f+1 references (or is of round 1) and enters the DAG when
all its references are there. A vertex is known by `hash_256` of its round and creator. Messages are delayed, reordered,
dropped; peers crash. The project proves what every run of this protocol keeps, for which peer ids the bytes on the wire
carry it, and that its two thread protocols are safe.

How the modules follow the program:

- `Protocol` has the state of one peer and what it does with it, as functions; `PeerNode`, `ServerSide` and `ThreadSafe` are
  the objects of `peer.cpp`, `networking.cpp` and `DataStructs/threadsafe.h`, whose methods update fields in place and are
  proved to compute these functions.
- `System` puts n peers and a lossy, duplicating, reordering network together as a step system. `Invariants` is what each step
  keeps; `Theorems` and `Waves` are the consequences in every reachable state. `Fixpoint` is the meaning of the buffer scan.
  `Effects` and `Delivery` spell out, step by step and with the numbers of the code, when each step is possible, what it changes,
  what it sends and to whom.
- `Vertices` (encoding), `Framing` (splitting), `Batching` (packets) and `Messages` (connections) are the wire format. `Repairs`
  ties it to the packets of the runs of `System`; `Forgery` has what unclean packets do; `Wire` is the step system again with
  messages delivered as bytes, and its runs are shown to be runs of `System`. `Completion` builds, for any crowd, a run that
  completes with full DAGs, so nothing above is about runs that cannot happen.
- `Digest`, `Requests` and `Identity` are the DAG digest, the request fan-out and vertex identity.
- `Handoff` and `Threadpool` are the thread protocols, as interleaved atomic steps with explicit program counters and
  spurious wake-ups. `Atomicity` shows that the handoff, seen through the lists both threads share, is made of the steps of
  `System`.
- `ByteStrings` and `FiniteSets` are the general lemmas underneath.

What is assumed. The hash is an arbitrary function of byte strings. `Deployment` asks that keys identify
round and creator in one deployment: `KeysAreDistinct` shows that this is exactly that the finitely many texts round ++ id
differ and the hash separates them, and that suffix-free ids are enough for the first half. Over all rounds suffix-free ids are
exactly what makes the texts differ (`UniqueExactlyWhenSuffixFree`); with a given last round less can do. The theorems in `Theorems`, `Waves`, `Fixpoint` and `Digest` are about
runs of `System`, where a delivered packet is the list of vertices that was sent. They hold of the bytes too, through
`WireRunsAreRuns`, under `Practical`: at most 398 peers, 32-bit rounds, 64-bit ids, 64-character digests without `#`, and no
tricky id, that is, no id of at most ten digits whose fifth and eighth bytes are `#`. `AgreementExactly` shows that this last
condition is exactly what agreement on records needs; ids from the nanosecond clock have 19 digits and meet it. A receive
that fails (a field announces more bytes than the chunk has) loses the packet or brings the receiver down: a loss or a
crash. The digest theorems assume no collision-freeness: they conclude equality or exhibit a collision between texts that
were hashed.

Where the code and its intention differ:

- `c_recvn` looks for a four-byte delimiter but compares only two of its bytes (networking.cpp:555). So a packet is split back
  correctly exactly when no two `#` stand three apart in the 16 header bytes of an encoding (`FirstSegment`, `SplitStream`,
  `ReceiveStream`); `CleanHeaderExactly` turns this into a condition on size, round and peer id. `LostBroadcast` is a failing
  input: the clock reading 1729420739819536384 (20 October 2024) as id gives a first vertex that nobody ever receives. Otherwise
  unclean packets are not received at all (`IntactOrNothing`), except those of a tricky id such as 587202595: there the
  receiver gets another record under the creator's key (`ForgedRecord`), and two peers end up disagreeing (`ForgedRun`).
- vertex.cpp:128 relies on all references having one length; `RoundTrip` shows that decoding succeeds exactly then,
  and `UnevenReferences` is a vertex that comes back as another one.
- The wake-up of a sleeping scanner can fail: networking.cpp:218 notifies only when there is something new or the network was
  quiet. `SleepsForEver` is a run in which the server keeps receiving messages it has no use for and the scanner is never
  woken. `WokenExactly` is the condition: a notification already under way, a spurious wake-up, or an epoll round that brings
  something or is quiet; `SleeperIsWoken` bounds the time from then on by seven events.
- The hashed text has no separator between round and id (vertex.cpp:59); `AmbiguousIds` gives two vertices with one text.
- The protocol follows a paper about Byzantine faults, but identity covers round and creator only. Everything here is for
  crashes and message loss.

The methods `UnorderedMap.Insert` and `Find`, `Server.ProcessRequest`, `Node.CheckRoundGuard`, `Node.TimeOut` and `Node.HandOver`
and the constructors are the same branches as the functions of `Protocol` they compute; the table leaves them out. What these
functions must do is stated in `Effects` and `Delivery`.

## Model

| member | source | states |
|---|---|---|
| Identity.UniqueExactlyWhenSuffixFree | vertex.cpp:56-61 | The unseparated text round ++ id identifies (round, creator) if and only if no peer id, written in decimal, ends another |
| Identity.SameDigitsSuffixFree | peer.cpp:10 | Ids with one common number of digits, as the nanosecond clock gives, meet that condition |
| Identity.AmbiguousIds | vertex.cpp:59 | Without it identity fails: round 1 of peer 11 and round 11 of peer 1 are hashed from the same text |
| Identity.ExampleId | vertex.cpp:59 | Round 12 of peer 345 is hashed from "12345" |
| Protocol.FaultsIsCeiling | peer.cpp:13 | (n-1)/3 in integers is the ceiling of n/3 - 1 computed in the constructor |
| Protocol.KeysAreDistinct | vertex.cpp:56-61 | Keys are unique per (round, creator) if and only if the texts of the rounds and peers differ and the hash separates them; suffix-free ids make the texts differ |
| Vertices.RoundTrip | vertex.cpp:95-204 | Decoding an encoding, under any length word and followed by anything, restores round, id, payload and references in order if and only if all references have one length |
| Vertices.UnevenReferences | vertex.cpp:126-133 | A vertex whose references have lengths 1 and 2 is printed and read back as another vertex |
| Vertices.Layout | vertex.cpp:99-153 | The encoding byte by byte: every field at its offset, numbers with the high byte first, negative rounds in two's complement, four # at the end |
| Vertices.ConcatAt | vertex.cpp:133-143 | Reference i stands at i times the width |
| Vertices.ParseExactly | vertex.cpp:158-204 | For arbitrary bytes: the parser succeeds if and only if all announced fields lie inside them, and reads every field from its place |
| Vertices.FramedSize | vertex.cpp:99-155 | The size of an encoding in closed form: 28, the payload, and 4 plus the references when there are any |
| Vertices.WithLengthOfEncode | networking.cpp:626-629 | Writing the message length over the first four bytes changes nothing but the length word of the first encoding |
| Vertices.AttachLength | networking.cpp:626-635 | The buffer's first four bytes become the big-endian length and every other byte stays |
| Vertices.VertexObject.AddRef | vertex.cpp:46-54 | Appends every key of the set once, in some order, after the old references, if and only if the caller is the creator |
| Vertices.VertexObject.SerializeData | vertex.cpp:95-156 | The buffer holds exactly the encoding, clear after it, and its size is returned |
| Vertices.VertexObject.SerializeRefs | vertex.cpp:121-144 | The moving offset writes the count, the common width and the references after what was there, and nothing else |
| Vertices.VertexObject.SerializeEach | vertex.cpp:132-143 | The references are printed one after the other in order |
| Vertices.VertexObject.DeserializeData | vertex.cpp:158-204 | The reset fields are refilled with what the parser finds; fails if and only if a read leaves the buffer |
| Vertices.VertexObject.DeserializeRefs | vertex.cpp:188-203 | Same for the reference block: none for a zero count, else count strings of the announced width |
| Vertices.VertexObject.DeserializeEach | vertex.cpp:198-202 | Same for the references at a moving offset |
| Framing.FiresBeforeDelimiter | networking.cpp:555 | In a protocol-built encoding, before its delimiter, the two-byte test fires exactly where it fires in the 16-byte header |
| Framing.FirstSegment | networking.cpp:553-565 | The first segment cut from a stream that begins with an encoding is that encoding if and only if its header is clean; otherwise the cut falls inside the header |
| Framing.SplitStream | networking.cpp:537-582 | A concatenation of encodings is cut back into them, in order and to the end, if and only if every header is clean |
| Framing.ReceiveStream | networking.cpp:524-583 | The vertices received are the vertices sent, in order, if and only if every header is clean |
| Framing.IntactOrNothing | networking.cpp:524-583 | A packet whose payloads reach beyond any false delimiter arrives intact when its headers are clean and is not received at all otherwise |
| Framing.OneBufferSuffices | networking.cpp:537-582 | However the headers are cut, the last delimiter closes the packet, so the loop never receives a second buffer |
| Framing.SplitPieces | networking.cpp:553-581 | For arbitrary bytes: the segments are pieces that end at their first pair of # three apart, in order and with nothing lost but a last part without such a pair |
| Framing.ParseChunk | networking.cpp:563-569 | A segment is parsed from the cleared chunk by the vertex object, and the chunk is clear again |
| Framing.RecvN | networking.cpp:524-583 | The scanning loop over one received buffer computes the split and the parse of all segments, or reports that the buffer has no final delimiter or a field leaves its chunk |
| Batching.BatchesKeep | peer.cpp:329-373 | The packets put together are the drained list: no vertex lost, repeated or reordered |
| Batching.BatchBounds | peer.cpp:347-363 | No packet is empty, every packet is shorter than 40000 plus one encoding, only the last is below 40000 |
| Batching.PacketStream | peer.cpp:334-350 | The bytes of a packet are the encodings with the packet's length as the first length word, and as many as that length says |
| Batching.PacketRoundTrip | peer.cpp:349-353 | A packet is received as its vertices if and only if its headers are clean |
| Batching.NewVertexFits | peer.cpp:149-160 | A vertex with the protocol's payload and at most 398 hexadecimal references of 64 characters is delimiter-free outside its header and leaves room for a packet that is not yet full |
| Batching.CleanHeaderExactly | networking.cpp:555 | For every round and every packet up to 65536 bytes: the header is clean if and only if none of eleven pairs of size, round and id bytes is a pair of #; below round 8960, if and only if no two # are three apart in the id, and not both the round ends in byte 35 and the id's third byte is # |
| Batching.SturdyUnlessTricky | peer.cpp:149-160 | For every id that is not tricky, a false delimiter in the header lies before the end of the payload, whatever the round |
| Batching.ExactDelivery | peer.cpp:318-374 | A list of protocol vertices becomes packets that all fit 65536 bytes, each arriving as its batch when its headers are clean and not at all otherwise, and the batches are the list |
| Forgery.LostBroadcast | networking.cpp:555 | Peer 1729420739819536384 can send its first vertex, whose header is not clean, and no receiver gets it |
| Forgery.ForgedRecord | networking.cpp:553-569 | The first broadcast of a tricky id is received as two records, the first with the creator's round and id and nothing else |
| Forgery.IntactUnlessTricky | networking.cpp:524-583 | The first broadcast of a peer arrives intact or not at all if and only if its id is not tricky |
| Messages.ReadBack | networking.cpp:585-624 | One message is taken off a connection unchanged, and nothing after it touched, if and only if it fits the server's buffer; a packet is then never taken for a request |
| Messages.RequestLayout | peer.cpp:430-438 | A request is 73 bytes: ?, the 64 characters of the key, the asker's id with its high byte first |
| Messages.ReadInOrder | networking.cpp:168-215 | A connection is read as the messages written to it, in order |
| Messages.ConnectionDelivers | networking.cpp:168-194 | Any mix of requests and packets is delivered as sent, in order, if and only if all headers are clean |
| Messages.Connection.ExamineMsg | networking.cpp:585-611 | Peeking tells a closed connection, a request and a packet of the peeked length apart and takes nothing |
| Messages.Connection.ProcessRequest | networking.cpp:613-624 | The 73 bytes of a request are taken and give the key and the asker |
| Messages.Connection.Next | networking.cpp:166-214 | One server event takes exactly the next complete message and decodes it, or leaves the connection alone |
| ServerSide.Server.Receive | networking.cpp:189-207 | A received packet is admitted vertex by vertex: round 1 or a quorum of references, and unknown; the rest is ignored |
| PeerNode.Node.AdvanceRound | peer.cpp:124-163 | The peer's whole state after advancing; up to the last round the stream holds the new vertex under its message length |
| PeerNode.Node.CreateVertex | peer.cpp:146-160 | A new row holding the peer's own new vertex, which lists the previous row once each, is in the map and is encoded for the broadcast |
| PeerNode.Node.Serialize | peer.cpp:159-160 | The encoded vertex under the length of the message |
| PeerNode.Node.Waves | peer.cpp:131-141 | Only the wave records, the blacklist and the rows asked for change, as the round demands |
| PeerNode.Node.DagScan | peer.cpp:376-389 | Exactly the incomplete rows of the window, cut off at row 0, are asked for |
| PeerNode.Node.TotalOrder | peer.cpp:485-516 | The blacklist grows by exactly the peers missing from an incomplete row of the window |
| PeerNode.Node.BlackListRow | peer.cpp:495-513 | Same for one row |
| PeerNode.Node.CheckRound | peer.cpp:391-419 | Exactly the other peers that are not blacklisted and whose vertex of the row is not in the map are asked for, once each |
| PeerNode.Node.AskRow | peer.cpp:391-470 | One request per missing vertex of the row, and each is a request the step system allows: to f+1 or f+2 other peers, the creator among them |
| PeerNode.Node.MutualHistory | peer.cpp:274-289 | True if and only if all references are in the previous row; the set is then that row without the references, else empty |
| PeerNode.Node.ScanBuffer | peer.cpp:205-237 | The pass that erases in place computes the DAG, the kept vertices in order, the leftover set and the repairs of the specification |
| PeerNode.Node.WakeUp | peer.cpp:195-237 | All requests are answered in order and removed, then the buffer is scanned; nothing else changes |
| PeerNode.Node.SendMissingVertices | peer.cpp:318-374 | Every key of the set is looked up once and the packets are the batches of these vertices, each under its length |
| PeerNode.Node.HashDag | peer.cpp:546-557 | The digest of the peer's own DAG |
| Invariants.AdvanceKeeps | peer.cpp:124-164 | Advancing keeps the peer invariant (rows causally closed, rows below full to a quorum, each vertex in one place) and the new vertex is a good record |
| Invariants.LastAdvanceKeeps | peer.cpp:124-146 | So does leaving the last round |
| Invariants.TimeOutKeeps | peer.cpp:165-183 | So does a time-out |
| Invariants.AdmitAllKeeps | networking.cpp:194-205 | So does admitting a packet of genuine vertices |
| Invariants.LookUpKeeps | networking.cpp:170-186 | So does queueing a request, whose answer is a genuine vertex |
| Invariants.HandOffKeeps | networking.cpp:241-248 | So does the handoff |
| Invariants.ScanOneKeeps | peer.cpp:209-236 | One buffered vertex moves to its row or stays: rows only grow, stay closed, and no key is counted twice |
| Invariants.WakeUpKeeps | peer.cpp:195-237 | So does a whole pass; rows only grow and every repair names only keys of the map |
| Invariants.BufferIndexable | peer.cpp:209-231 | Every buffered vertex the scan looks at has a row in the DAG |
| System.StepKeeps | peer.cpp:120-245 | Every step of every peer and of the network keeps the invariant of the whole system |
| System.InvAlways | peer.cpp:120-245 | So every state of every run satisfies it |
| Theorems.Agreement | peer.cpp:205-237 | In every run of the system, where packets arrive as sent: two peers that hold a vertex hold the same record in the same row, the same ancestors, and all of these are in both DAGs |
| Theorems.RoundBound | vertex.cpp:56-61 | At most one vertex per round and creator |
| Theorems.RowBound | peer.cpp:226 | A row holds at most n vertices, all of its round |
| Theorems.NoPeerOutrunsQuorum | peer.cpp:124-164 | A peer in round r >= 2 holds between 2f+1 and n vertices in every row below, and 2f+1 peers have created their vertex of round r-1 |
| Theorems.DeepQuorum | peer.cpp:127-152 | A vertex has at least 2f+1 ancestors in each earlier row |
| Theorems.SharedReferences | networking.cpp:111-113 | Two vertices of one round, at any two peers, share at least 2(2f+1) - n references, which is f+1 when n = 3f+1 |
| Theorems.SupportPersists | networking.cpp:196 | Once more than n - (2f+1) vertices of round r+1, held anywhere, reference u, it is from then on an ancestor of every vertex of every later round in every DAG |
| Theorems.StepGrows | peer.cpp:120-245 | No step shrinks a row, a map, a round or the record of created vertices |
| Theorems.RunGrows | peer.cpp:120-245 | So for all pairs of states of a run |
| Theorems.VerticesConserved | networking.cpp:194-205 | In every reachable state each key of a peer's map is in exactly one of the server's list, the buffer and the DAG, once, and no other key is anywhere |
| Theorems.OwnVerticesNeverBuffered | peer.cpp:153-155 | A peer's own vertices are never in the lists waiting to enter its DAG |
| Effects.AdvanceExactlyWhen | peer.cpp:124-127 | A running peer can advance if and only if it is not past the last round and is in round 0 or holds 2((n-1)/3)+1 vertices of its row |
| Effects.AdvanceLaw | peer.cpp:143-161 | The new vertex: round, creator, payload text, the previous row listed once; it enters the map and a row of its own and goes, alone, to every other peer that is not blacklisted; nothing else is sent and nobody else changes |
| Effects.WaveLaw | peer.cpp:131-141 | Rounds 8, 12, ... ask for the rows r-8 to r-5 that lack somebody; rounds 10, 14, ... blacklist exactly the others missing from a row r-10 to r-7; no other round does either |
| Effects.SparseExactly | peer.cpp:383 | A row has fewer vertices than there are peers if and only if it lacks somebody's |
| Effects.TimeOutExactlyWhen | peer.cpp:165-168 | A running peer can time out if and only if it is not past the last round and cannot advance |
| Effects.TimeOutLaw | peer.cpp:170-183 | In the last round the stop mark goes down by one; before, the rows of the last four rounds that lack somebody are asked for; nothing else |
| Delivery.AdmissionLaw | networking.cpp:194-205 | For any packet: a key is new after its delivery if and only if it was unknown and the packet has a vertex under it of round 1 or with 2((n-1)/3)+1 references; what is new goes to the front of the server's list once |
| Delivery.AllAdmitted | networking.cpp:194-205 | In a run, after the delivery of a packet the peer holds every vertex of it |
| Delivery.QueryLaw | networking.cpp:170-186 | A request for a known vertex is queued with that vertex and the asker, any other forgotten; nothing else changes |
| Delivery.HandOverLaw | networking.cpp:241-248 | Both lists move, in order, behind what the scanner has |
| Delivery.AskLaw | peer.cpp:391-470 | A request step is possible, and does this, if and only if: row asked for, creator not blacklisted and unknown there, f+1 or f+2 others with the creator among them, the key of that row and creator, the asker named |
| Delivery.AlwaysReceives | networking.cpp:143-166 | A running peer can take any message addressed to it and hand over at any time |
| Delivery.OtherLaws | peer.cpp:239-245 | A message may be lost; a running peer may crash; it leaves exactly when its round is above the stop mark |
| Delivery.WakeLaw | peer.cpp:195-237 | A wake-up clears the requests and changes DAG, buffer and leftover set only |
| Delivery.AlwaysWakes | peer.cpp:205-237 | In a run a wake-up never fails, whatever the draws |
| Delivery.RequestsAreAnswered | peer.cpp:197-203 | Every request there is answered with its vertex to its asker |
| Delivery.RepairsAreSent | peer.cpp:219-224 | Every repair a vertex sets off is sent whole, in its packets, to the creator of that vertex |
| Delivery.NothingElseIsSent | peer.cpp:195-237 | Every packet new after a wake-up answers a request or belongs to such a repair |
| Delivery.RepairReaches | peer.cpp:205-374 | The way of a repair end to end: sent to the creator of the vertex that set it off, fitting its buffer, and with clean headers bringing each missing vertex once |
| Delivery.RequestAnswered | networking.cpp:170-186 | Over a run: a peer that gets a request for a vertex it knows has sent it to the asker by its next wake-up after a handoff, whatever happens in between |
| Delivery.AnswersWereAsked | peer.cpp:197-203 | Over a run: every packet a wake-up sends was asked for by a request delivered before, or belongs to a repair |
| Waves.WavesTile | peer.cpp:131-141 | The ordered windows are [0,4), [4,8), ... without gap or overlap, one for each of the rounds 10, 14, ... that is over; each was scanned exactly two rounds before; all lie inside the DAG, which has one row per round entered |
| Waves.DigestInsideInspected | peer.cpp:239-245 | A peer that leaves its loop by itself has a row for every round, and what hash_dag covers has been inspected by total_order |
| Waves.FullRow | peer.cpp:492 | A row as large as the crowd contains every peer's vertex |
| Waves.BlackListExact | peer.cpp:485-516 | Skipping rows that look complete is sound: total_order blacklists exactly the other peers absent from some row of its window |
| Fixpoint.LeastIsClosed | peer.cpp:205-237 | The level-by-level DAG contains the old one and every buffered vertex it accepts |
| Fixpoint.LeastIsLeast | peer.cpp:205-237 | And it is inside every DAG with these two properties |
| Fixpoint.ScanReachesLeast | peer.cpp:205-237 | Within as many passes as the round the DAG is that least one, the buffer holds in order exactly what it does not accept, and a further pass changes nothing |
| Fixpoint.OrderDoesNotMatter | peer.cpp:205-237 | Buffers with the same vertices in different orders end with the same DAG and the same waiting vertices |
| Fixpoint.WakeUpsArePasses | peer.cpp:195-237 | The wake-ups of a peer are such passes, whatever the random draws |
| Fixpoint.ReachableScan | peer.cpp:195-237 | From every reachable state the wake-ups reach the least DAG and never index outside it |
| Repairs.EveryPacketArrives | peer.cpp:472-483 | Every packet any run ever sends (broadcast, answer, repair) fits the receiver's buffer; its bytes are received as its vertices when its headers are clean and not received otherwise |
| Repairs.RepairsExactly | peer.cpp:213-224 | A pass sends exactly the repairs set off by its accepted vertices: to the creator, the previous row at that moment without the references |
| Repairs.LeftOver | peer.cpp:104-224 | What is left over when the scan comes to a vertex: what the last vertex compared with its row left, if accepted and not repaired; what there was before the pass, if none was; else nothing |
| Repairs.ExactRepair | peer.cpp:274-374 | Every key of a repair is in the map, its packets fit, and with clean headers the creator receives each missing vertex exactly once |
| Wire.WireStepRefines | networking.cpp:168-207 | A step on the wire, where a message is what its bytes decode to and a failed receive is a loss or a crash, is a step of the system |
| Wire.WireRunsAreRuns | networking.cpp:168-207 | So every run on the wire is a run of the system, and all theorems about those hold of it |
| Wire.EveryMessageHasBytes | peer.cpp:430-438 | Every packet and request of every run is one the wire format can carry, so deliveries on the wire exclude none |
| Wire.AgreementOnTheWire | peer.cpp:205-237 | Agreement on record, row and ancestors with messages as bytes |
| Wire.ForgedRun | networking.cpp:553-569 | For a tricky id, a run on the wire after which creator and receiver hold different records under one key in their DAGs |
| Wire.AgreementExactly | networking.cpp:194-205 | Among two or more peers, all runs on the wire agree on records if and only if no peer id is tricky |
| Wire.EveryPacketIntact | networking.cpp:524-583 | With ids without # three apart and, from round 35 on, without # as third byte, and fewer than 8960 rounds, every packet of every run is received as it was sent |
| Wire.IntactExactly | networking.cpp:524-583 | For fewer than 8960 rounds and two or more peers: every packet of every run is received as it was sent if and only if all ids are of this kind |
| Wire.RunsAreWireRuns | networking.cpp:168-207 | With such ids every run of the system can happen on the wire |
| Completion.CanClimb | peer.cpp:120-245 | For every round up to the last there is a run that ends with all peers in it, all rows below full and every vertex sent to everyone |
| Completion.CanComplete | main.cpp:109-116 | So all peers can end with the same DAG, with n vertices in every row |
| Requests.MakeRequest | peer.cpp:421-470 | The f+2 copies are consumed once each; the recipients are f+1 or f+2 distinct sockets and include the owner |
| Requests.SomeRecipientIsCorrect | peer.cpp:450-467 | So some recipient is outside any set of f faulty peers |
| Digest.ListingUnique | peer.cpp:530-531 | A set has only one ascending listing, so iteration order does not matter |
| Digest.SortedCopy | peer.cpp:525-531 | Copying a set in any order and sorting gives that listing |
| Digest.HashSet | peer.cpp:518-544 | The digest of a row is the hash of its listing put together |
| Digest.HashDag | peer.cpp:546-557 | The loop computes the digest of the DAG |
| Digest.DigestIs | peer.cpp:546-557 | The digest is the hash of the row digests put together, one per row but the last twelve, each the hash of the row's ascending listing; and only that |
| Digest.EqualDigestsMeanEqualPrefixes | peer.cpp:518-557 | Equal digests mean equal rows but for the last twelve, number of rows included, or a collision between two texts that were hashed |
| Digest.EqualPrefixesMeanEqualDigests | peer.cpp:518-557 | DAGs equal but for the last twelve rows have equal digests |
| Digest.PeersWithEqualDigests | main.cpp:109-116 | The same for two peers of any reachable state |
| Handoff.NoLostWakeUp | peer.cpp:186-193 | The scanner never sleeps with the flag clear unless the server is on its way to notify; once the scanner is gone the busy wait is not stuck |
| Handoff.SharedListsGuarded | networking.cpp:241-244 | The shared lists change only in a step of the thread that holds the mutex, and the two never both do |
| Handoff.HandoffConserves | networking.cpp:218-248 | Every admitted vertex and every request is pending, shared or taken, exactly once |
| Handoff.OneHandoffPerReadiness | networking.cpp:221-234 | The flag is a token: between two handoffs the scanner has made itself ready again |
| Handoff.NobodyIsStuck | peer.cpp:186-193 | No deadlock: only sleep and the end stop the scanner for good; where one thread waits for the mutex the other holds it and can move |
| Handoff.BusyWaitEnds | networking.cpp:221-229 | While the server waits for the flag the scanner can move, and sets it within six moves |
| Handoff.SleeperIsServed | networking.cpp:218-246 | While the scanner sleeps the server can always move |
| Handoff.SleepsOn | networking.cpp:218 | From a sleeping scanner and a server between two handoffs, the scanner sleeps as long as there is no spurious wake-up and every epoll round brings nothing and is not quiet |
| Handoff.NotifiedSoon | networking.cpp:221-246 | From the busy wait on the server wakes a sleeping scanner within six events |
| Handoff.SleeperIsWoken | networking.cpp:218-246 | In every run a sleeping scanner is woken within seven events of a spurious wake-up or of a round that brings something or is quiet |
| Handoff.WokenExactly | networking.cpp:218-246 | In every endless run a sleeping scanner is woken if and only if the notification is under way or there is such an event at some time |
| Handoff.SleepsForEver | networking.cpp:218 | A run from the start in which the scanner falls asleep and is never woken |
| Handoff.ServerStops | peer.cpp:239-245 | After the scanner has gone the server always can move and stops within nine moves |
| Atomicity.InsertIsHandOff | networking.cpp:241-248 | Between the two threads, the insertion under the mutex is the whole handoff: the later clearing of the server's lists is not visible |
| Atomicity.PassIsWakeUp | peer.cpp:195-237 | The scanner's pass that keeps what the scan keeps is the wake-up of the step system |
| Atomicity.ArrivalsAreDeliveries | networking.cpp:143-217 | An epoll round is a series of deliveries |
| Atomicity.DeliveriesPrepend | networking.cpp:194-205 | Admitting a packet puts vertices in front of the server's list, extends the map and changes nothing else |
| Atomicity.OtherEventsStutter | networking.cpp:218-248 | No other event of the two threads changes what they share |
| Threadpool.TasksConserved | DataStructs/threadsafe.h:247-304 | First in first out, and every enqueued task is queued, in flight or executed, once |
| Threadpool.QueueHasHelp | DataStructs/threadsafe.h:254-256 | A non-empty queue has an awake worker or a notification to come; while anyone sleeps, as many ready workers and notifications as tasks |
| Threadpool.JoinedMeansDone | DataStructs/threadsafe.h:282-294 | When all workers have returned every enqueued task has been executed, once |
| Threadpool.JoinsEnd | DataStructs/threadsafe.h:258-293 | After notify_all some worker can move until all have returned, and every worker move reduces the work left |
| Threadpool.EnqueueWorks | DataStructs/threadsafe.h:296-304 | With the mutex free and the pool not closing any task can be enqueued: end of the queue, one more notification |
| Threadpool.WorkerLaw | DataStructs/threadsafe.h:254-267 | A worker with the mutex takes the front task, sleeps, or returns when the pool is stopping and the queue empty |
| Threadpool.MutexIsReleased | DataStructs/threadsafe.h:254-302 | Whoever holds the mutex can move and gives it up within two moves |
| Threadpool.CloserCanMove | DataStructs/threadsafe.h:282-289 | The destructor can always take its next step, but for the mutex |
| Threadpool.NoticeCanGo | DataStructs/threadsafe.h:303 | A notification that is due can reach any sleeper |

## Left out

- Framing.RecvN: one received buffer. The second `recv` of the loop, for a buffer that does not end in a delimiter, is a failed receive here; `Framing.OneBufferSuffices` shows that packets of the protocol never need it. Reads past the end of a chunk (a field announcing more than there is) are undefined in C++ and a failed receive here.
- Forgery.ForgedRecord: memory is unbounded, as in `Wire.ForgedRun` and the failing half of `Wire.AgreementExactly`. For ten-digit ids the second record announces 589505315 empty references; for nine-digit ids it does not.
- Protocol.FaultsIsCeiling: exact reals stand for the `double` arithmetic of peer.cpp:13 and networking.cpp:112.
- Messages.Connection.Next: all bytes of a message are visible when it is examined. A peek that sees fewer than the four length bytes is not modelled. A length above 65536 is not taken; the code would receive it past its buffer.
- PeerNode.Node.TotalOrder: only the effect on the blacklist (so also `PeerNode.Node.BlackListRow`). The dead socket is erased while iterating, which advances the iterator once too often and is undefined when that socket is last (peer.cpp:505-511).
- PeerNode.Node.HashDag: needs twelve rows, because the unsigned subtraction at peer.cpp:550 does; the same holds for `Digest.HashDag`.
- PeerNode.Node.AdvanceRound: needs at most 1023 vertices of 64-character keys in the row (so does `PeerNode.Node.CreateVertex`), so that the encoding fits the 65536-byte buffer; the code writes past it beyond that. Rounds stay below 2^31 and ids below 2^64; the overflow of `int round` is not modelled.
- Requests.MakeRequest: needs f+1 sockets; with fewer (blacklisted peers lose theirs) the code reads past the vector. The shuffle is an arbitrary order of the sockets.
- Repairs.ExactRepair: for a vertex of round 1 the set may be left over from an earlier one (peer.cpp:213); then the set is as `Repairs.LeftOver` says, and its lookups and delivery are claimed, not that it is the row below.
- Digest.SortedCopy: `std::sort` is an insertion sort here; only its result matters.
- `broadcast` (peer.cpp:614-629) is the message set `System.Broadcast`, one copy per socket that is left; its heap copies are not modelled.
- Sockets, epoll, fork, pipes, signals, log and record files, `connect_to`, `write_record`, move constructors, the commented-out pool.
- `c_sendn`: delays, the random drop and the partial-send loop. A message in the system may be delivered at any time, again, or lost. The bytes of one message are contiguous on the connection; several pool workers writing to one socket could interleave partial sends of large packets.
- Wall-clock time: a time-out is a step that may happen whenever the guard of a round fails.
- SHA-256 and its hexadecimal text: a function parameter.
- In `System` a peer's advance, its wake-up and the receipt of one message are single steps, and packets are lists of vertices. The finer interleaving of server and scanner is in `Handoff` and `Atomicity`, the bytes are in `Wire`. The detached `check_round` threads are one step per row and peer asked.
- That all peers end with the same DAG (main.cpp:109-116): loss makes it false in general; it is possible (`Completion.CanComplete`), and agreement on shared histories and on equal digests is proved of every run.
- Byzantine or equivocating creators. A vertex in the network is one that a peer created.
- The `MEMCPY FAILED` print of vertex.cpp:136-139, which only writes to the console.
