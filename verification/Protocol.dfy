/** What one peer does, as functions of its state (peer.cpp, Server::start in networking.cpp).
    The classes in Server.dfy and PeerNode.dfy are proved to compute these functions. */
module Protocol {
  import opened ByteStrings
  import opened FiniteSets
  import opened Identity
  import opened Vertices
  import opened Batching

  const WAVE := 4
  const HALF_WAVE := 2

  /** A deployment: the peers, the last round, and hash_256. */
  datatype Config = Config(peers: set<nat>, lastRound: nat, hash: Bytes -> Bytes)

  function Crowd(c: Config): nat {
    |c.peers|
  }

  /** The bound on failed peers: ceil(crowd / 3 - 1). */
  function Faults(c: Config): nat {
    if Crowd(c) == 0 then 0 else (Crowd(c) - 1) / 3
  }

  function Quorum(c: Config): nat {
    2 * Faults(c) + 1
  }

  function Ceiling(x: real): int {
    -(-x).Floor
  }

  /** The integer form agrees with the floating-point expressions at peer.cpp:13 and networking.cpp:112. */
  lemma FaultsIsCeiling(c: Config)
    requires c.peers != {}
    ensures Faults(c) == Ceiling(Crowd(c) as real / 3.0 - 1.0)
  {
    var n := Crowd(c);
    var f, x := (n - 1) / 3, n as real / 3.0 - 1.0;
    assert 3 * f + 1 <= n <= 3 * f + 3;
    assert f as real - 1.0 < x <= f as real;
  }

  // ---- Keys ----

  function VertexKey(c: Config, round: int, pid: nat): Key {
    c.hash(Id(round, pid))
  }

  function KeyOf(c: Config, v: Vertex): Key {
    VertexKey(c, v.round, v.pid)
  }

  /** The hash separates the texts that can occur in a run. */
  ghost predicate CollisionFree(c: Config) {
    forall r1: nat, p: nat, r2: nat, q: nat ::
      1 <= r1 <= c.lastRound && 1 <= r2 <= c.lastRound && p in c.peers && q in c.peers && c.hash(Id(r1, p)) == c.hash(Id(r2, q))
      ==> Id(r1, p) == Id(r2, q)
  }

  /** Keys identify (round, creator). */
  ghost predicate DistinctKeys(c: Config) {
    forall r1: nat, p: nat, r2: nat, q: nat ::
      1 <= r1 <= c.lastRound && 1 <= r2 <= c.lastRound && p in c.peers && q in c.peers && VertexKey(c, r1, p) == VertexKey(c, r2, q)
      ==> r1 == r2 && p == q
  }

  /** The texts that can occur in a run are different. */
  ghost predicate TextsDiffer(c: Config) {
    forall r1: nat, p: nat, r2: nat, q: nat ::
      1 <= r1 <= c.lastRound && 1 <= r2 <= c.lastRound && p in c.peers && q in c.peers && Id(r1, p) == Id(r2, q)
      ==> r1 == r2 && p == q
  }

  lemma TextsAndHash(c: Config)
    requires TextsDiffer(c) && CollisionFree(c)
    ensures DistinctKeys(c)
  {
    hide Id;
    forall r1: nat, p: nat, r2: nat, q: nat |
      1 <= r1 <= c.lastRound && 1 <= r2 <= c.lastRound && p in c.peers && q in c.peers && VertexKey(c, r1, p) == VertexKey(c, r2, q)
      ensures r1 == r2 && p == q
    {
      assert c.hash(Id(r1, p)) == c.hash(Id(r2, q));
      assert Id(r1, p) == Id(r2, q);
    }
  }

  lemma DistinctTexts(c: Config)
    requires DistinctKeys(c)
    ensures TextsDiffer(c) && CollisionFree(c)
  {
    hide Id;
    forall r1: nat, p: nat, r2: nat, q: nat |
      1 <= r1 <= c.lastRound && 1 <= r2 <= c.lastRound && p in c.peers && q in c.peers && c.hash(Id(r1, p)) == c.hash(Id(r2, q))
      ensures r1 == r2 && p == q
    {
      assert VertexKey(c, r1, p) == VertexKey(c, r2, q);
    }
  }

  /** Keys identify vertices exactly when the texts differ and the hash separates them; suffix-free ids are enough for the
      texts to differ, whatever the last round. */
  lemma KeysAreDistinct(c: Config)
    ensures DistinctKeys(c) <==> TextsDiffer(c) && CollisionFree(c)
    ensures SuffixFree(c.peers) ==> TextsDiffer(c)
  {
    UniqueExactlyWhenSuffixFree(c.peers);
    hide SuffixFree, CollisionFree, DistinctKeys, Id;
    if DistinctKeys(c) { DistinctTexts(c); }
    if TextsDiffer(c) && CollisionFree(c) { TextsAndHash(c); }
  }

  // ---- The state of one peer ----

  datatype Status = Running | Exited | Crashed

  /** A vertex someone asked for, to be sent to `asker`. */
  datatype Request = Request(asker: nat, vertex: Vertex)

  /** One call of dag_scan or total_order: the round it was made in and the rows it covers. */
  datatype Window = Window(at: nat, start: int, end: int)

  /** `dag` is dag_image; `vmap` is the server's vertex_map; `temp` and `tempRequests` are the server's lists;
      `buffer` and `requests` are the lists shared under the mutex; `leftover` is the scanner's local `set`;
      `asking` are the rows whose check_round thread has been started; `scans` and `orders` record the wave calls. */
  datatype Peer = Peer(
    status: Status, round: nat, stop: int,
    dag: seq<set<Key>>, vmap: map<Key, Vertex>,
    temp: seq<Vertex>, tempRequests: seq<Request>,
    buffer: seq<Vertex>, requests: seq<Request>,
    leftover: set<Key>, blackList: set<nat>, asking: set<nat>,
    scans: seq<Window>, orders: seq<Window>)

  function InitialPeer(c: Config): Peer {
    Peer(Running, 0, c.lastRound, [], map[], [], [], [], [], {}, {}, {}, [], [])
  }

  function Min(a: int, b: int): int {
    if a <= b then a else b
  }

  /** One row of dag_image per round entered, up to the last round. */
  predicate Shape(c: Config, p: Peer) {
    |p.dag| == Min(p.round, c.lastRound) && p.round <= c.lastRound + 1
  }

  // ---- Waves ----

  /** Rows of a window that look incomplete (peer.cpp:381-388). */
  function SparseRows(c: Config, dag: seq<set<Key>>, start: int, end: int): set<nat>
    requires 0 <= start && end <= |dag|
  {
    set i: nat | start <= i < end && |dag[i]| < Crowd(c)
  }

  function FromZero(start: int): int {
    if start < 0 then 0 else start
  }

  function DagScan(c: Config, p: Peer, end: int, start: int): Peer
    requires end <= |p.dag|
  {
    p.(asking := p.asking + SparseRows(c, p.dag, FromZero(start), end),
       scans := p.scans + [Window(p.round, FromZero(start), end)])
  }

  /** The peers total_order blacklists: those whose vertex is missing from a sparse row of the window (peer.cpp:485-515). */
  function Silent(c: Config, me: nat, dag: seq<set<Key>>, start: int, end: int): set<nat>
    requires 0 <= start && end <= |dag|
  {
    set q, i: nat | q in c.peers && q != me && start <= i < end && |dag[i]| < Crowd(c) && VertexKey(c, i + 1, q) !in dag[i] :: q
  }

  function TotalOrder(c: Config, me: nat, p: Peer, end: int, start: int): Peer
    requires 0 <= start && end <= |p.dag|
  {
    p.(blackList := p.blackList + Silent(c, me, p.dag, start, end), orders := p.orders + [Window(p.round, start, end)])
  }

  /** peer.cpp:131-141. */
  function WaveWork(c: Config, me: nat, p: Peer): (w: Peer)
    requires Shape(c, p) && p.round <= c.lastRound
    ensures w == p.(blackList := w.blackList, asking := w.asking, scans := w.scans, orders := w.orders)
  {
    if p.round % WAVE == 0 && p.round > WAVE then
      DagScan(c, p, p.round - WAVE, p.round - 2 * WAVE)
    else if p.round % WAVE == HALF_WAVE && p.round > 2 * WAVE then
      var finish := p.round - (WAVE + HALF_WAVE);
      TotalOrder(c, me, p, finish, finish - WAVE)
    else p
  }

  // ---- Advancing ----

  predicate CanAdvance(c: Config, p: Peer)
    requires Shape(c, p)
  {
    p.round <= c.lastRound && (p.round == 0 || |p.dag[p.round - 1]| >= Quorum(c))
  }

  /** The references of a new vertex list the previous row once each, in iteration order. */
  predicate ListsPreviousRow(c: Config, p: Peer, refs: seq<Key>)
    requires Shape(c, p) && p.round < c.lastRound
  {
    if p.round == 0 then refs == [] else Distinct(refs) && Elements(refs) == p.dag[p.round - 1]
  }

  function NewVertex(round: nat, me: nat, refs: seq<Key>): Vertex {
    Vertex(round, me, NewPayload(round, me), refs)
  }

  /** peer.cpp:124-162 when the guard holds. */
  function AdvanceRound(c: Config, me: nat, p: Peer, refs: seq<Key>): Peer
    requires Shape(c, p) && CanAdvance(c, p)
    requires p.round < c.lastRound ==> ListsPreviousRow(c, p, refs)
  {
    var w := WaveWork(c, me, p);
    if p.round < c.lastRound then
      var v := NewVertex(p.round + 1, me, refs);
      w.(round := p.round + 1, dag := p.dag + [{KeyOf(c, v)}], vmap := p.vmap[KeyOf(c, v) := v])
    else
      w.(round := p.round + 1)
  }

  /** peer.cpp:165-183: too long in a round without a quorum. */
  function TimeOut(c: Config, p: Peer): Peer
    requires Shape(c, p) && !CanAdvance(c, p) && p.round <= c.lastRound
  {
    if p.round == c.lastRound then p.(stop := p.stop - 1) else DagScan(c, p, p.round, p.round - WAVE)
  }

  /** A request that check_round may make for a row (peer.cpp:391-470): the creator's vertex is unknown and the creator not
      blacklisted; it goes to f + 1 or f + 2 other peers, the creator among them. */
  ghost predicate AskOk(c: Config, me: nat, p: Peer, row: nat, target: nat, dests: set<nat>) {
    && row in p.asking && target in c.peers && target != me && target !in p.blackList
    && VertexKey(c, row + 1, target) !in p.vmap
    && target in dests && dests <= c.peers - {me} && Faults(c) + 1 <= |dests| <= Faults(c) + 2
  }

  // ---- The server ----

  /** networking.cpp:196-204. */
  function Admit(c: Config, p: Peer, v: Vertex): Peer {
    if (|v.refs| >= Quorum(c) || v.round == 1) && KeyOf(c, v) !in p.vmap
    then p.(temp := [v] + p.temp, vmap := p.vmap[KeyOf(c, v) := v])
    else p
  }

  function AdmitAll(c: Config, p: Peer, vs: seq<Vertex>): Peer
    decreases |vs|
  {
    if vs == [] then p else AdmitAll(c, Admit(c, p, vs[0]), vs[1..])
  }

  /** networking.cpp:178-185. */
  function LookUp(p: Peer, key: Key, asker: nat): Peer {
    if key in p.vmap then p.(tempRequests := [Request(asker, p.vmap[key])] + p.tempRequests) else p
  }

  /** networking.cpp:241-248. */
  function HandOff(p: Peer): Peer {
    p.(buffer := p.buffer + p.temp, requests := p.requests + p.tempRequests, temp := [], tempRequests := [])
  }

  // ---- The buffer scan ----

  /** Vertices to send to the creator of an accepted vertex. */
  datatype Repair = Repair(dest: nat, keys: set<Key>)

  datatype Pass = Pass(dag: seq<set<Key>>, kept: seq<Vertex>, leftover: set<Key>, repairs: seq<Repair>)

  /** The scanner indexes dag_image with the vertex's round; the row must exist. */
  predicate Indexable(round: nat, dag: seq<set<Key>>, v: Vertex) {
    round >= v.round ==> 1 <= v.round <= |dag|
  }

  /** peer.cpp:213: round 1, or every reference present in the previous row. */
  predicate Acceptable(round: nat, dag: seq<set<Key>>, v: Vertex)
    requires Indexable(round, dag, v)
  {
    round >= v.round && (v.round == 1 || forall r :: r in v.refs ==> r in dag[v.round - 2])
  }

  /** One buffered vertex (peer.cpp:209-236). `coin` is the random draw that decides about sending repairs. */
  function ScanOne(c: Config, round: nat, p: Pass, v: Vertex, coin: bool): Pass
    requires Indexable(round, p.dag, v)
  {
    if Acceptable(round, p.dag, v) then
      var left := if v.round == 1 then p.leftover else p.dag[v.round - 2] - Elements(v.refs);
      var send := left != {} && coin;
      Pass(p.dag[v.round - 1 := p.dag[v.round - 1] + {KeyOf(c, v)}], p.kept,
           if send then {} else left,
           if send then p.repairs + [Repair(v.pid, left)] else p.repairs)
    else
      Pass(p.dag, p.kept + [v], if round >= v.round then {} else p.leftover, p.repairs)
  }

  predicate AllIndexable(round: nat, dag: seq<set<Key>>, vs: seq<Vertex>) {
    forall i :: 0 <= i < |vs| ==> Indexable(round, dag, vs[i])
  }

  /** A whole pass over the buffer, one draw per vertex. */
  function ScanAll(c: Config, round: nat, p: Pass, todo: seq<Vertex>, coins: seq<bool>): (r: Pass)
    requires AllIndexable(round, p.dag, todo) && |coins| == |todo|
    ensures |r.dag| == |p.dag|
    decreases |todo|
  {
    if todo == [] then p
    else ScanAll(c, round, ScanOne(c, round, p, todo[0], coins[0]), todo[1..], coins[1..])
  }

  function ScanBuffer(c: Config, p: Peer, coins: seq<bool>): Pass
    requires AllIndexable(p.round, p.dag, p.buffer) && |coins| == |p.buffer|
  {
    ScanAll(c, p.round, Pass(p.dag, [], p.leftover, []), p.buffer, coins)
  }

  /** After a wake-up: the requests have been answered and the buffer scanned (peer.cpp:195-237). */
  function WakeUp(c: Config, p: Peer, coins: seq<bool>): Peer
    requires AllIndexable(p.round, p.dag, p.buffer) && |coins| == |p.buffer|
  {
    var pass := ScanBuffer(c, p, coins);
    p.(requests := [], dag := pass.dag, buffer := pass.kept, leftover := pass.leftover)
  }

  /** The vertices stored under a list of keys. */
  function Fetch(vmap: map<Key, Vertex>, keys: seq<Key>): seq<Vertex>
    requires forall i :: 0 <= i < |keys| ==> keys[i] in vmap
  {
    seq(|keys|, i requires 0 <= i < |keys| => vmap[keys[i]])
  }
}
