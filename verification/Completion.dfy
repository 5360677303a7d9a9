/** The protocol can complete: whatever the crowd, there is a run in which all peers climb to the last round together and
    every DAG is full. */
module Completion {
  import opened ByteStrings
  import opened FiniteSets
  import opened Vertices
  import opened Batching
  import opened Protocol
  import opened Invariants
  import opened System
  import opened Theorems

  /** The vertices of everyone in round r. */
  function Row(c: Config, r: nat): set<Key> {
    set q | q in c.peers :: VertexKey(c, r, q)
  }

  function Rows(c: Config, r: nat): seq<set<Key>> {
    seq(r, i requires 0 <= i < r => Row(c, i + 1))
  }

  lemma RowSize(c: Config, r: nat)
    requires DistinctKeys(c) && 1 <= r <= c.lastRound
    ensures |Row(c, r)| == Crowd(c)
  {
    var key := q requires q in c.peers => VertexKey(c, r, q);
    RowIsImage(c, r);
    forall p, q | p in c.peers && q in c.peers && VertexKey(c, r, p) == VertexKey(c, r, q) ensures p == q {
    }
    hide VertexKey, DistinctKeys;
    ImageSize(c.peers, q => VertexKey(c, r, q));
  }

  lemma RowIsImage(c: Config, r: nat)
    ensures Row(c, r) == Image(c.peers, q => VertexKey(c, r, q))
  {
    hide VertexKey;
  }

  lemma {:induction false} Listing(keys: set<Key>) returns (refs: seq<Key>)
    ensures Distinct(refs) && Elements(refs) == keys
  {
    if keys == {} {
      refs := [];
    } else {
      var k :| k in keys;
      var rest := Listing(keys - {k});
      refs := [k] + rest;
      assert forall i :: 0 <= i < |rest| ==> rest[i] in Elements(rest);
      assert Elements(refs) == {k} + Elements(rest);
    }
  }

  // ---- Reaching states ----

  lemma Start(c: Config) returns (s: State)
    ensures Init(c, s) && Reachable(c, s)
  {
    s := State(map p | p in c.peers :: InitialPeer(c), {}, map[]);
    assert Run(c, [s]);
  }

  lemma OneMore(c: Config, s: State, s': State, step: Step)
    requires Reachable(c, s) && NextStep(c, s, s', step)
    ensures Reachable(c, s')
  {
    hide Init, NextStep;
    var tr :| Run(c, tr) && tr[|tr| - 1] == s;
    var longer := tr + [s'];
    assert Next(c, s, s');
    forall i | 0 <= i < |longer| - 1 ensures Next(c, longer[i], longer[i + 1]) {
      if i < |tr| - 1 { assert Next(c, tr[i], tr[i + 1]); }
    }
    assert Run(c, longer) && longer[|longer| - 1] == s';
  }

  // ---- Peers in step ----

  /** A running peer with nothing in its lists and nobody blacklisted. */
  predicate Quiet(p: Peer) {
    && p.status == Running && p.temp == [] && p.tempRequests == [] && p.buffer == [] && p.requests == []
    && p.leftover == {} && p.blackList == {}
  }

  /** In round r with full rows. */
  predicate Done(c: Config, p: Peer, r: nat) {
    Quiet(p) && p.round == r && p.dag == Rows(c, r)
  }

  /** In round r + 1 with full rows below, and part of the current one: exactly the known vertices of the round. */
  ghost predicate Filling(c: Config, p: Peer, r: nat) {
    && Quiet(p) && p.round == r + 1 && |p.dag| == r + 1 && p.dag[..r] == Rows(c, r) && p.dag[r] <= Row(c, r + 1)
    && forall k :: k in Row(c, r + 1) ==> (k in p.vmap <==> k in p.dag[r])
  }

  /** A vertex of round r + 1 that references the whole full row r. */
  predicate Whole(c: Config, r: nat, q: nat, v: Vertex) {
    v.round == r + 1 && v.pid == q && if r == 0 then v.refs == [] else Distinct(v.refs) && Elements(v.refs) == Row(c, r)
  }

  /** It is on its way to everyone else. */
  ghost predicate Sent(c: Config, s: State, r: nat, q: nat) {
    exists v :: Whole(c, r, q, v) && SentTo(c, s.net, q, v)
  }

  ghost predicate SentTo(c: Config, net: set<Message>, q: nat, v: Vertex) {
    forall p :: p in c.peers && p != q ==> Packet(p, [v]) in net
  }

  // ---- Advancing ----

  lemma FullWaves(c: Config, me: nat, p: Peer)
    requires DistinctKeys(c) && Done(c, p, p.round) && Shape(c, p) && p.round <= c.lastRound
    ensures WaveWork(c, me, p).blackList == {}
  {
    hide VertexKey, Quiet, DistinctKeys;
    forall i | 0 <= i < |p.dag| ensures |p.dag[i]| == Crowd(c) { RowSize(c, i + 1); }
    QuietFields(p);
  }

  lemma QuietFields(p: Peer)
    requires Quiet(p)
    ensures p.blackList == {}
  {
  }

  lemma FullCanAdvance(c: Config, p: Peer, r: nat)
    requires DistinctKeys(c) && c.peers != {} && Done(c, p, r) && r < c.lastRound
    ensures Shape(c, p) && CanAdvance(c, p)
  {
    hide VertexKey, Quiet;
    if r > 0 { RowSize(c, r); }
  }

  lemma AdvancedPeer(c: Config, me: nat, p: Peer, r: nat, refs: seq<Key>)
    requires DistinctKeys(c) && c.peers != {} && me in c.peers && Done(c, p, r) && r < c.lastRound
    requires Shape(c, p) && CanAdvance(c, p) && ListsPreviousRow(c, p, refs)
    requires forall k :: k in Row(c, r + 1) ==> k !in p.vmap
    ensures Filling(c, AdvanceRound(c, me, p, refs), r) && VertexKey(c, r + 1, me) in AdvanceRound(c, me, p, refs).dag[r]
    ensures Whole(c, r, me, NewVertex(r + 1, me, refs))
  {
    hide VertexKey, WaveWork, DistinctKeys, NewPayload;
    FullWaves(c, me, p);
    var p' := AdvanceRound(c, me, p, refs);
    assert p'.dag[..r] == Rows(c, r);
    if r > 0 { assert p.dag[r - 1] == Row(c, r); }
  }

  lemma AdvanceTo(c: Config, s: State, q: nat, refs: seq<Key>) returns (s': State)
    requires Reachable(c, s) && Runs(s, q) && Shape(c, s.peers[q]) && CanAdvance(c, s.peers[q])
    requires s.peers[q].round < c.lastRound && ListsPreviousRow(c, s.peers[q], refs)
    ensures Reachable(c, s')
    ensures var p' := AdvanceRound(c, q, s.peers[q], refs);
            s'.peers == s.peers[q := p'] && s'.net == s.net + Broadcast(c, q, p'.blackList, NewVertex(p'.round, q, refs))
  {
    hide AdvanceRound, KeyOf, Reachable, Shape, CanAdvance, ListsPreviousRow, NewVertex, Broadcast;
    var p' := AdvanceRound(c, q, s.peers[q], refs);
    var v := NewVertex(p'.round, q, refs);
    s' := State(s.peers[q := p'], s.net + Broadcast(c, q, p'.blackList, v), s.created[KeyOf(c, v) := v]);
    OneMore(c, s, s', Advance(q, refs));
  }

  lemma ToAllOthers(c: Config, q: nat, v: Vertex)
    ensures SentTo(c, Broadcast(c, q, {}, v), q, v)
  {
    forall p | p in c.peers && p != q ensures Packet(p, [v]) in Broadcast(c, q, {}, v) {
    }
  }

  lemma SentMore(c: Config, net: set<Message>, more: set<Message>, q: nat, v: Vertex)
    requires SentTo(c, net, q, v) && net <= more
    ensures SentTo(c, more, q, v)
  {
  }

  /** Peer q advances. */
  lemma AdvanceOne(c: Config, s: State, r: nat, q: nat) returns (s': State)
    requires Deployment(c) && Reachable(c, s) && q in s.peers && q in c.peers && Done(c, s.peers[q], r) && r < c.lastRound
    requires forall k :: k in Row(c, r + 1) ==> k !in s.peers[q].vmap
    ensures Reachable(c, s') && q in s'.peers && s'.peers == s.peers[q := s'.peers[q]]
    ensures Filling(c, s'.peers[q], r) && VertexKey(c, r + 1, q) in s'.peers[q].dag[r]
    ensures s.net <= s'.net && Sent(c, s', r, q)
  {
    hide VertexKey, DistinctKeys, Reachable, Filling, Whole, Rows, Row, AdvanceRound, CanAdvance, Shape, Quiet, Broadcast, NewVertex, SentTo;
    var me := s.peers[q];
    DoneFields(c, me, r);
    FullCanAdvance(c, me, r);
    var refs := AnyListing(c, me);
    AdvancedPeer(c, q, me, r, refs);
    s' := AdvanceTo(c, s, q, refs);
    var p' := s'.peers[q];
    FillingFields(c, p', r);
    var v := NewVertex(r + 1, q, refs);
    ToAllOthers(c, q, v);
    SentMore(c, Broadcast(c, q, {}, v), s'.net, q, v);
    assert Whole(c, r, q, v) && SentTo(c, s'.net, q, v);
  }

  lemma AnyListing(c: Config, p: Peer) returns (refs: seq<Key>)
    requires Shape(c, p) && p.round < c.lastRound
    ensures ListsPreviousRow(c, p, refs)
  {
    refs := [];
    if p.round > 0 { refs := Listing(p.dag[p.round - 1]); }
  }

  lemma DoneFields(c: Config, p: Peer, r: nat)
    requires Done(c, p, r)
    ensures p.round == r && p.status == Running && |p.dag| == r
  {
  }

  lemma FillingFields(c: Config, p: Peer, r: nat)
    requires Filling(c, p, r)
    ensures p.round == r + 1 && p.status == Running && |p.dag| == r + 1 && p.blackList == {}
  {
  }

  // ---- Receiving ----

  /** A peer in round r + 1 takes in q's vertex of this round: received, handed over, scanned. */
  function Received(c: Config, p: Peer, r: nat, v: Vertex): Peer
    requires r < |p.dag|
  {
    p.(vmap := p.vmap[KeyOf(c, v) := v], dag := p.dag[r := p.dag[r] + {KeyOf(c, v)}])
  }

  lemma AdmitOne(c: Config, p: Peer, r: nat, q: nat, v: Vertex)
    requires DistinctKeys(c) && Filling(c, p, r) && Whole(c, r, q, v) && q in c.peers && r < c.lastRound
    requires VertexKey(c, r + 1, q) !in p.dag[r]
    ensures AdmitAll(c, p, [v]) == p.(vmap := p.vmap[KeyOf(c, v) := v], temp := [v])
  {
    hide VertexKey, DistinctKeys;
    if r > 0 {
      RowSize(c, r);
      DistinctSize(v.refs);
    }
    assert [v][1..] == [];
    assert VertexKey(c, r + 1, q) in Row(c, r + 1);
    assert AdmitAll(c, p, [v]) == AdmitAll(c, Admit(c, p, v), []);
  }

  lemma ScanWhole(c: Config, p: Peer, r: nat, q: nat, v: Vertex)
    requires p.round == r + 1 && |p.dag| == r + 1 && p.dag[..r] == Rows(c, r) && p.leftover == {} && p.buffer == [v] && Whole(c, r, q, v)
    ensures AllIndexable(p.round, p.dag, p.buffer)
    ensures ScanBuffer(c, p, [false]) == Pass(p.dag[r := p.dag[r] + {KeyOf(c, v)}], [], {}, [])
  {
    hide KeyOf, VertexKey;
    var start := Pass(p.dag, [], p.leftover, []);
    assert p.buffer[1..] == [] && [false][1..] == [];
    if r > 0 {
      assert p.dag[r - 1] == p.dag[..r][r - 1] == Row(c, r);
      assert p.dag[r - 1] - Elements(v.refs) == {};
    }
    assert ScanAll(c, p.round, start, p.buffer, [false]) == ScanOne(c, p.round, start, v, false);
  }

  lemma DeliverTo(c: Config, s: State, p: nat, v: Vertex) returns (s': State)
    requires Reachable(c, s) && Runs(s, p) && Packet(p, [v]) in s.net
    ensures Reachable(c, s') && s' == s.(peers := s.peers[p := AdmitAll(c, s.peers[p], [v])])
  {
    hide AdmitAll, Reachable;
    s' := s.(peers := s.peers[p := AdmitAll(c, s.peers[p], [v])]);
    OneMore(c, s, s', Deliver(p, Packet(p, [v])));
  }

  lemma HandOverTo(c: Config, s: State, p: nat) returns (s': State)
    requires Reachable(c, s) && Runs(s, p)
    ensures Reachable(c, s') && s' == s.(peers := s.peers[p := HandOff(s.peers[p])])
  {
    hide Reachable;
    s' := s.(peers := s.peers[p := HandOff(s.peers[p])]);
    OneMore(c, s, s', HandOver(p));
  }

  lemma WakeTo(c: Config, s: State, p: nat, coins: seq<bool>) returns (s': State)
    requires Reachable(c, s) && Runs(s, p) && AllIndexable(s.peers[p].round, s.peers[p].dag, s.peers[p].buffer)
    requires |coins| == |s.peers[p].buffer| && ScanBuffer(c, s.peers[p], coins).repairs == []
    ensures Reachable(c, s') && s'.peers == s.peers[p := WakeUp(c, s.peers[p], coins)] && s.net <= s'.net
  {
    hide Reachable, ScanBuffer, WakeUp, AllIndexable;
    var me := s.peers[p];
    assert ListsRepairs(me.vmap, [], []);
    s' := State(s.peers[p := WakeUp(c, me, coins)], s.net + Answers(me.requests) + RepairPackets(me.vmap, [], []), s.created);
    OneMore(c, s, s', Wake(p, coins, []));
  }

  lemma ReceivedFills(c: Config, p: Peer, r: nat, q: nat, v: Vertex)
    requires Filling(c, p, r) && Whole(c, r, q, v) && q in c.peers
    ensures Filling(c, Received(c, p, r, v), r) && Received(c, p, r, v).dag[r] == p.dag[r] + {VertexKey(c, r + 1, q)}
  {
    hide VertexKey;
    assert VertexKey(c, r + 1, q) in Row(c, r + 1);
    assert Received(c, p, r, v).dag[..r] == p.dag[..r];
  }

  lemma ReceiveOne(c: Config, s: State, r: nat, p: nat, q: nat, v: Vertex) returns (s': State)
    requires Deployment(c) && Reachable(c, s) && p in s.peers && q in c.peers && r < c.lastRound
    requires Filling(c, s.peers[p], r) && Whole(c, r, q, v) && Packet(p, [v]) in s.net
    requires VertexKey(c, r + 1, q) !in s.peers[p].dag[r]
    ensures Reachable(c, s') && p in s'.peers && s'.peers == s.peers[p := s'.peers[p]] && s.net <= s'.net
    ensures Filling(c, s'.peers[p], r) && s'.peers[p].dag[r] == s.peers[p].dag[r] + {VertexKey(c, r + 1, q)}
  {
    hide VertexKey, KeyOf, DistinctKeys, Reachable, Whole, Rows, Row, ScanBuffer, AdmitAll, AllIndexable;
    var me := s.peers[p];
    AdmitOne(c, me, r, q, v);
    var s1 := DeliverTo(c, s, p, v);
    var s2 := HandOverTo(c, s1, p);
    var ready := s2.peers[p];
    assert ready == me.(vmap := me.vmap[KeyOf(c, v) := v], buffer := [v]);
    ScanWhole(c, ready, r, q, v);
    s' := WakeTo(c, s2, p, [false]);
    assert s'.peers[p] == Received(c, me, r, v);
    ReceivedFills(c, me, r, q, v);
  }

  // ---- A whole round ----

  /** Some peers are still in round r with full rows; the others are in round r + 1 and have sent their vertex. */
  ghost predicate Climbing(c: Config, s: State, r: nat, waiting: set<nat>) {
    && s.peers.Keys == c.peers
    && (forall p :: p in waiting ==> p in s.peers && Waits(c, s.peers[p], r))
    && forall p :: p in c.peers && p !in waiting ==> Climbed(c, s.peers[p], r, p) && Sent(c, s, r, p)
  }

  ghost predicate Waits(c: Config, p: Peer, r: nat) {
    Done(c, p, r) && forall k :: k in Row(c, r + 1) ==> k !in p.vmap
  }

  ghost predicate Climbed(c: Config, p: Peer, r: nat, me: nat) {
    Filling(c, p, r) && VertexKey(c, r + 1, me) in p.dag[r]
  }

  lemma SentStays(c: Config, s: State, s': State, r: nat, q: nat)
    requires Sent(c, s, r, q) && s.net <= s'.net
    ensures Sent(c, s', r, q)
  {
    hide Whole, SentTo;
    var v :| Whole(c, r, q, v) && SentTo(c, s.net, q, v);
    SentMore(c, s.net, s'.net, q, v);
  }

  lemma {:induction false} AdvanceAll(c: Config, s: State, r: nat, waiting: set<nat>) returns (s': State)
    requires Deployment(c) && Reachable(c, s) && r < c.lastRound && Climbing(c, s, r, waiting)
    ensures Reachable(c, s') && Climbing(c, s', r, {})
    decreases waiting
  {
    hide Deployment, Reachable, Done, Row, Filling, Sent, VertexKey;
    if waiting == {} {
      s' := s;
    } else {
      var q :| q in waiting;
      var next := AdvanceOne(c, s, r, q);
      forall p | p in c.peers && p !in waiting - {q} ensures Climbed(c, next.peers[p], r, p) && Sent(c, next, r, p) {
        if p != q { SentStays(c, s, next, r, p); }
      }
      s' := AdvanceAll(c, next, r, waiting - {q});
    }
  }

  /** Peer p takes in the vertices of the peers it still lacks. */
  lemma {:induction false} FillPeer(c: Config, s: State, r: nat, p: nat, left: set<nat>) returns (s': State)
    requires Deployment(c) && Reachable(c, s) && r < c.lastRound && p in s.peers && Climbed(c, s.peers[p], r, p) && p in c.peers
    requires forall q :: q in c.peers ==> Sent(c, s, r, q) && (q in left || VertexKey(c, r + 1, q) in s.peers[p].dag[r])
    ensures Reachable(c, s') && p in s'.peers && s'.peers == s.peers[p := s'.peers[p]] && s.net <= s'.net
    ensures Done(c, s'.peers[p], r + 1)
    decreases left
  {
    hide Deployment, Reachable, Done, Row, Filling, Sent, VertexKey, Whole, SentTo;
    FillingFields(c, s.peers[p], r);
    if left == {} {
      RowFull(c, s.peers[p], r);
      s' := s;
    } else {
      var q :| q in left;
      var next := s;
      if q in c.peers && VertexKey(c, r + 1, q) !in s.peers[p].dag[r] {
        var v := OnItsWay(c, s, r, p, q);
        next := ReceiveOne(c, s, r, p, q, v);
        forall x | x in c.peers ensures Sent(c, next, r, x) { SentStays(c, s, next, r, x); }
        FillingFields(c, next.peers[p], r);
      }
      s' := FillPeer(c, next, r, p, left - {q});
    }
  }

  lemma OnItsWay(c: Config, s: State, r: nat, p: nat, q: nat) returns (v: Vertex)
    requires Sent(c, s, r, q) && p in c.peers && p != q
    ensures Whole(c, r, q, v) && Packet(p, [v]) in s.net
  {
    hide Whole;
    v :| Whole(c, r, q, v) && SentTo(c, s.net, q, v);
  }

  lemma RowFull(c: Config, p: Peer, r: nat)
    requires Filling(c, p, r) && forall q :: q in c.peers ==> VertexKey(c, r + 1, q) in p.dag[r]
    ensures Done(c, p, r + 1)
  {
    hide VertexKey;
    assert p.dag == p.dag[..r] + [p.dag[r]];
    assert p.dag[r] == Row(c, r + 1);
    assert Rows(c, r + 1) == Rows(c, r) + [Row(c, r + 1)];
  }

  /** The peers of `left` are still filling their row, the others have filled it. */
  ghost predicate FillingUp(c: Config, s: State, r: nat, left: set<nat>) {
    && s.peers.Keys == c.peers
    && (forall p :: p in c.peers ==> Sent(c, s, r, p) && if p in left then Climbed(c, s.peers[p], r, p) else Done(c, s.peers[p], r + 1))
  }

  lemma {:induction false} FillAll(c: Config, s: State, r: nat, left: set<nat>) returns (s': State)
    requires Deployment(c) && Reachable(c, s) && r < c.lastRound && left <= c.peers && FillingUp(c, s, r, left)
    ensures Reachable(c, s') && FillingUp(c, s', r, {})
    decreases left
  {
    hide Deployment, Reachable, Done, Climbed, Sent, VertexKey;
    if left == {} {
      s' := s;
    } else {
      var p :| p in left;
      ClimbedRow(c, s.peers[p], r, p);
      var next := FillPeer(c, s, r, p, c.peers);
      forall x | x in c.peers ensures Sent(c, next, r, x) { SentStays(c, s, next, r, x); }
      s' := FillAll(c, next, r, left - {p});
    }
  }

  lemma ClimbedRow(c: Config, p: Peer, r: nat, me: nat)
    requires Climbed(c, p, r, me)
    ensures r < |p.dag|
  {
  }

  // ---- The whole run ----

  /** Every peer is in round r with full rows, and has sent its vertex of this round to all others. */
  ghost predicate AllAt(c: Config, s: State, r: nat) {
    && s.peers.Keys == c.peers
    && (forall p :: p in c.peers ==> Done(c, s.peers[p], r))
    && (r > 0 ==> forall p :: p in c.peers ==> Sent(c, s, r - 1, p))
  }

  /** Nobody knows a vertex of the next round. */
  lemma NextRowUnknown(c: Config, s: State, r: nat, p: nat)
    requires Deployment(c) && Reachable(c, s) && AllAt(c, s, r) && r < c.lastRound && p in c.peers
    ensures Waits(c, s.peers[p], r)
  {
    hide Reachable, Inv, VertexKey, DistinctKeys, Sent;
    ReachableInv(c, s);
    DeploymentKeys(c);
    PeerView(c, s, p);
    forall k | k in Row(c, r + 1) ensures k !in s.peers[p].vmap {
      var q :| q in c.peers && k == VertexKey(c, r + 1, q);
      DoneFields(c, s.peers[q], r);
      FreshKey(c, s, q);
    }
  }

  lemma ClimbOne(c: Config, s: State, r: nat) returns (s': State)
    requires Deployment(c) && Reachable(c, s) && AllAt(c, s, r) && r < c.lastRound
    ensures Reachable(c, s') && AllAt(c, s', r + 1)
  {
    hide Deployment, Reachable, Done, Climbed, Sent, Waits;
    forall p | p in c.peers ensures Waits(c, s.peers[p], r) { NextRowUnknown(c, s, r, p); }
    var advanced := AdvanceAll(c, s, r, c.peers);
    s' := FillAll(c, advanced, r, c.peers);
  }

  lemma StartsDone(c: Config)
    ensures Done(c, InitialPeer(c), 0)
  {
  }

  /** For every round up to the last there is a run that ends with all peers in it, all rows full. */
  lemma {:induction false} CanClimb(c: Config, r: nat) returns (s: State)
    requires Deployment(c) && r <= c.lastRound
    ensures Reachable(c, s) && AllAt(c, s, r)
  {
    hide Deployment, Reachable, Done, Sent, InitialPeer;
    if r == 0 {
      s := Start(c);
      StartsDone(c);
    } else {
      var before := CanClimb(c, r - 1);
      s := ClimbOne(c, before, r - 1);
    }
  }

  /** In particular the protocol can complete with the same full DAG at every peer. */
  lemma CanComplete(c: Config)
    requires Deployment(c)
    ensures exists s :: Reachable(c, s) && s.peers.Keys == c.peers && forall p :: p in c.peers ==> s.peers[p].dag == Rows(c, c.lastRound)
    ensures forall r :: 1 <= r <= c.lastRound ==> |Row(c, r)| == Crowd(c)
  {
    hide DistinctKeys, Reachable, Sent, VertexKey, Crowd;
    var s := CanClimb(c, c.lastRound);
    assert forall p :: p in c.peers ==> Done(c, s.peers[p], c.lastRound);
    forall r | 1 <= r <= c.lastRound ensures |Row(c, r)| == Crowd(c) { RowSize(c, r); }
  }
}
