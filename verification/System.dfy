/** The whole system: peers, a lossy, reordering, duplicating network, crashes; and the invariant of its runs. */
module System {
  import opened FiniteSets
  import opened Identity
  import opened Vertices
  import opened Batching
  import opened Protocol
  import opened Invariants

  /** A packet of vertices, or a request for the vertex with a key. */
  datatype Message = Packet(dest: nat, vertices: seq<Vertex>) | Query(dest: nat, key: Key, asker: nat)

  /** `net` holds every message sent and not lost; delivery leaves it there, so it may be delivered again.
      `created` is the history of created vertices. */
  datatype State = State(peers: map<nat, Peer>, net: set<Message>, created: Ledger)

  datatype Step =
    | Advance(p: nat, refs: seq<Key>)
    | Wait(p: nat)
    | Deliver(p: nat, m: Message)
    | HandOver(p: nat)
    | Wake(p: nat, coins: seq<bool>, orders: seq<seq<Key>>)
    | Ask(p: nat, row: nat, target: nat, dests: set<nat>)
    | Lose(m: Message)
    | Leave(p: nat)
    | Crash(p: nat)

  /** There are peers, and keys identify round and creator (see KeysAreDistinct). */
  ghost predicate Deployment(c: Config) {
    c.peers != {} && DistinctKeys(c)
  }

  ghost predicate Init(c: Config, s: State) {
    s == State(map p | p in c.peers :: InitialPeer(c), {}, map[])
  }

  ghost predicate Runs(s: State, p: nat) {
    p in s.peers && s.peers[p].status == Running
  }

  /** The sockets left after blacklisting (peer.cpp:614-629). */
  ghost function Broadcast(c: Config, me: nat, blackList: set<nat>, v: Vertex): set<Message> {
    set q | q in c.peers && q != me && q !in blackList :: Packet(q, [v])
  }

  ghost function Answers(requests: seq<Request>): set<Message> {
    set i | 0 <= i < |requests| :: Packet(requests[i].asker, [requests[i].vertex])
  }

  /** The iteration orders of the repair sets; every key is looked up in the map. */
  ghost predicate ListsRepairs(vmap: map<Key, Vertex>, repairs: seq<Repair>, orders: seq<seq<Key>>) {
    && |orders| == |repairs|
    && forall j :: 0 <= j < |orders| ==> ListsKeys(vmap, repairs[j].keys, orders[j])
  }

  ghost predicate ListsKeys(vmap: map<Key, Vertex>, keys: set<Key>, order: seq<Key>) {
    Distinct(order) && Elements(order) == keys && forall i :: 0 <= i < |order| ==> order[i] in vmap
  }

  ghost function RepairPackets(vmap: map<Key, Vertex>, repairs: seq<Repair>, orders: seq<seq<Key>>): set<Message>
    requires ListsRepairs(vmap, repairs, orders)
  {
    set j, k | 0 <= j < |repairs| && 0 <= k < |Batches(Fetch(vmap, orders[j]))| ::
      Packet(repairs[j].dest, Batches(Fetch(vmap, orders[j]))[k])
  }

  ghost function Queries(me: nat, key: Key, dests: set<nat>): set<Message> {
    set d | d in dests :: Query(d, key, me)
  }

  function Deliver1(c: Config, p: Peer, m: Message): Peer {
    match m
    case Packet(_, vertices) => AdmitAll(c, p, vertices)
    case Query(_, key, asker) => LookUp(p, key, asker)
  }

  ghost predicate NextStep(c: Config, s: State, s': State, step: Step) {
    match step
    case Advance(p, refs) =>
      Runs(s, p) && Shape(c, s.peers[p]) && CanAdvance(c, s.peers[p])
      && (s.peers[p].round < c.lastRound ==> ListsPreviousRow(c, s.peers[p], refs))
      && var p' := AdvanceRound(c, p, s.peers[p], refs);
         var v := NewVertex(p'.round, p, refs);
         s' == if s.peers[p].round < c.lastRound
               then State(s.peers[p := p'], s.net + Broadcast(c, p, p'.blackList, v), s.created[KeyOf(c, v) := v])
               else State(s.peers[p := p'], s.net, s.created)
    case Wait(p) =>
      Runs(s, p) && Shape(c, s.peers[p]) && !CanAdvance(c, s.peers[p]) && s.peers[p].round <= c.lastRound
      && s' == s.(peers := s.peers[p := TimeOut(c, s.peers[p])])
    case Deliver(p, m) =>
      Runs(s, p) && m in s.net && m.dest == p
      && s' == s.(peers := s.peers[p := Deliver1(c, s.peers[p], m)])
    case HandOver(p) =>
      Runs(s, p) && s' == s.(peers := s.peers[p := HandOff(s.peers[p])])
    case Wake(p, coins, orders) =>
      Runs(s, p) && AllIndexable(s.peers[p].round, s.peers[p].dag, s.peers[p].buffer) && |coins| == |s.peers[p].buffer|
      && var repairs := ScanBuffer(c, s.peers[p], coins).repairs;
         ListsRepairs(s.peers[p].vmap, repairs, orders)
         && s' == State(s.peers[p := WakeUp(c, s.peers[p], coins)],
                        s.net + Answers(s.peers[p].requests) + RepairPackets(s.peers[p].vmap, repairs, orders), s.created)
    case Ask(p, row, target, dests) =>
      Runs(s, p) && AskOk(c, p, s.peers[p], row, target, dests)
      && s' == s.(net := s.net + Queries(p, VertexKey(c, row + 1, target), dests))
    case Lose(m) =>
      s' == s.(net := s.net - {m})
    case Leave(p) =>
      Runs(s, p) && s.peers[p].round > s.peers[p].stop
      && s' == s.(peers := s.peers[p := s.peers[p].(status := Exited)])
    case Crash(p) =>
      Runs(s, p) && s' == s.(peers := s.peers[p := s.peers[p].(status := Crashed)])
  }

  ghost predicate Next(c: Config, s: State, s': State) {
    exists step :: NextStep(c, s, s', step)
  }

  /** A finite run from the initial state. */
  ghost predicate Run(c: Config, tr: seq<State>) {
    tr != [] && Init(c, tr[0]) && forall i :: 0 <= i < |tr| - 1 ==> Next(c, tr[i], tr[i + 1])
  }

  ghost predicate Reachable(c: Config, s: State) {
    exists tr :: Run(c, tr) && tr[|tr| - 1] == s
  }

  // ---- The invariant ----

  /** A peer has entered the round of each vertex it created. */
  ghost predicate RoundsOk(s: State) {
    forall k :: k in s.created ==> s.created[k].pid in s.peers && s.created[k].round <= s.peers[s.created[k].pid].round
  }

  ghost predicate NetOk(c: Config, created: Ledger, net: set<Message>) {
    forall m :: m in net && m.Packet? ==> AllGenuine(c, created, m.vertices)
  }

  ghost predicate PeersOk(c: Config, s: State) {
    s.peers.Keys == c.peers && forall p :: p in s.peers ==> PeerOk(c, s.created, p, s.peers[p])
  }

  ghost predicate Inv(c: Config, s: State) {
    LedgerOk(c, s.created) && PeersOk(c, s) && RoundsOk(s) && NetOk(c, s.created, s.net)
  }

  lemma InitOk(c: Config, s: State)
    requires Init(c, s)
    ensures Inv(c, s)
  {
    hide KeyOf, VertexKey;
  }

  /** One peer changed, the ledger and the network at most grew. */
  lemma PeerChanged(c: Config, s: State, s': State, p: nat)
    requires Inv(c, s) && p in s.peers
    requires p in s'.peers && s'.peers == s.peers[p := s'.peers[p]]
    requires Extends(s.created, s'.created) && LedgerOk(c, s'.created)
    requires PeerOk(c, s'.created, p, s'.peers[p]) && s'.peers[p].round >= s.peers[p].round
    requires forall k :: k in s'.created && k !in s.created ==> s'.created[k].pid == p && s'.created[k].round <= s'.peers[p].round
    requires forall m :: m in s'.net && m !in s.net && m.Packet? ==> AllGenuine(c, s'.created, m.vertices)
    ensures Inv(c, s')
  {
    hide LedgerOk, PeerOk, KeyOf, VertexKey;
    forall q | q in s'.peers ensures PeerOk(c, s'.created, q, s'.peers[q]) {
      if q != p { PeerOkLater(c, s.created, s'.created, q, s.peers[q]); }
    }
    forall m | m in s'.net && m.Packet? ensures AllGenuine(c, s'.created, m.vertices) {
      if m in s.net { assert AllGenuine(c, s.created, m.vertices); }
    }
  }

  lemma AdvanceStep(c: Config, s: State, s': State, p: nat, refs: seq<Key>)
    requires DistinctKeys(c) && Inv(c, s) && NextStep(c, s, s', Advance(p, refs))
    ensures Inv(c, s')
  {
    hide PeerOk, LedgerOk, WaveWork, VertexKey, NewPayload;
    var me := s.peers[p];
    if me.round < c.lastRound {
      var v := NewVertex(me.round + 1, p, refs);
      FreshKey(c, s, p);
      AdvanceKeeps(c, s.created, p, me, refs);
      forall m | m in Broadcast(c, p, s'.peers[p].blackList, v) ensures m.Packet? && AllGenuine(c, s'.created, m.vertices) {
        assert m.vertices == [v];
      }
    } else {
      LastAdvanceKeeps(c, s.created, p, me, refs);
    }
    PeerChanged(c, s, s', p);
  }

  /** Nobody has created this peer's next vertex. */
  lemma FreshKey(c: Config, s: State, p: nat)
    requires DistinctKeys(c) && Inv(c, s) && p in s.peers && s.peers[p].round < c.lastRound
    ensures VertexKey(c, s.peers[p].round + 1, p) !in s.created
  {
    hide PeerOk, VertexKey;
    forall k | k in s.created ensures k != VertexKey(c, s.peers[p].round + 1, p) {
      assert EntryOk(c, s.created, k);
    }
  }

  lemma WakeStep(c: Config, s: State, s': State, p: nat, coins: seq<bool>, orders: seq<seq<Key>>)
    requires Inv(c, s) && NextStep(c, s, s', Wake(p, coins, orders))
    ensures Inv(c, s')
  {
    hide LedgerOk, PeerOk, VertexKey, KeyOf, ScanBuffer, RepairPackets, Answers, RoundsOk, NetOk, ListsRepairs, AllIndexable;
    var me := s.peers[p];
    WakeUpKeeps(c, s.created, p, me, coins);
    WakeUpRound(c, me, coins);
    var repairs := ScanBuffer(c, me, coins).repairs;
    AnswersGenuine(c, s.created, p, me);
    RepairsGenuine(c, s.created, p, me, repairs, orders);
    PeerChanged(c, s, s', p);
  }

  lemma WakeUpRound(c: Config, p: Peer, coins: seq<bool>)
    requires AllIndexable(p.round, p.dag, p.buffer) && |coins| == |p.buffer|
    ensures WakeUp(c, p, coins).round == p.round
  {
  }

  lemma AnswersGenuine(c: Config, created: Ledger, me: nat, p: Peer)
    requires PeerOk(c, created, me, p)
    ensures forall m :: m in Answers(p.requests) && m.Packet? ==> AllGenuine(c, created, m.vertices)
  {
    hide KeyBag, DagBag, DagOk, KeyOf, VertexKey;
  }

  lemma RepairsGenuine(c: Config, created: Ledger, me: nat, p: Peer, repairs: seq<Repair>, orders: seq<seq<Key>>)
    requires LedgerOk(c, created) && PeerOk(c, created, me, p) && ListsRepairs(p.vmap, repairs, orders)
    ensures forall m :: m in RepairPackets(p.vmap, repairs, orders) && m.Packet? ==> AllGenuine(c, created, m.vertices)
  {
    hide LedgerOk, KeyBag, DagBag, DagOk, KeyOf, VertexKey, AllGenuine, Batches;
    forall m | m in RepairPackets(p.vmap, repairs, orders) ensures AllGenuine(c, created, m.vertices) {
      var j, k :| 0 <= j < |repairs| && 0 <= k < |Batches(Fetch(p.vmap, orders[j]))|
                  && m == Packet(repairs[j].dest, Batches(Fetch(p.vmap, orders[j]))[k]);
      RepairGenuine(c, created, p.vmap, orders[j], k);
    }
  }

  lemma RepairGenuine(c: Config, created: Ledger, vmap: map<Key, Vertex>, order: seq<Key>, k: nat)
    requires LedgerOk(c, created) && Storage(created, vmap)
    requires (forall i :: 0 <= i < |order| ==> order[i] in vmap) && k < |Batches(Fetch(vmap, order))|
    ensures AllGenuine(c, created, Batches(Fetch(vmap, order))[k])
  {
    hide Batches, VertexKey;
    var vs := Fetch(vmap, order);
    var batch := Batches(vs)[k];
    forall i | 0 <= i < |batch| ensures Genuine(c, created, batch[i]) {
      BatchMember(vs, k, i);
      var n :| 0 <= n < |vs| && vs[n] == batch[i];
      assert EntryOk(c, created, order[n]);
    }
  }

  lemma DeliverStep(c: Config, s: State, s': State, p: nat, m: Message)
    requires Inv(c, s) && NextStep(c, s, s', Deliver(p, m))
    ensures Inv(c, s')
  {
    hide PeerOk, LedgerOk, KeyOf, VertexKey;
    var me := s.peers[p];
    match m {
      case Packet(_, vertices) =>
        AdmitAllKeeps(c, s.created, p, me, vertices);
        AdmitAllRound(c, me, vertices);
      case Query(_, key, asker) =>
        LookUpKeeps(c, s.created, p, me, key, asker);
    }
    PeerChanged(c, s, s', p);
  }

  lemma {:induction false} AdmitAllRound(c: Config, p: Peer, vs: seq<Vertex>)
    ensures AdmitAll(c, p, vs).round == p.round && AdmitAll(c, p, vs).dag == p.dag && Extends(p.vmap, AdmitAll(c, p, vs).vmap)
    decreases |vs|
  {
    if vs != [] { AdmitAllRound(c, Admit(c, p, vs[0]), vs[1..]); }
  }

  lemma LocalStep(c: Config, s: State, s': State, p: nat, p': Peer)
    requires Inv(c, s) && p in s.peers && s' == s.(peers := s.peers[p := p'])
    requires PeerOk(c, s.created, p, p') && p'.round == s.peers[p].round
    ensures Inv(c, s')
  {
    hide PeerOk, LedgerOk;
    PeerChanged(c, s, s', p);
  }

  lemma StatusKeeps(c: Config, created: Ledger, me: nat, p: Peer, status: Status)
    requires PeerOk(c, created, me, p) && (status == Exited ==> p.round > p.stop)
    ensures PeerOk(c, created, me, p.(status := status))
  {
    hide KeyBag, DagBag, DagOk, KeyOf, VertexKey;
  }

  lemma NetStep(c: Config, s: State, net: set<Message>)
    requires Inv(c, s) && forall m :: m in net && m.Packet? ==> m in s.net
    ensures Inv(c, s.(net := net))
  {
    hide PeerOk, LedgerOk, KeyOf, VertexKey;
    var s' := s.(net := net);
    assert forall p :: p in s'.peers ==> s'.peers[p] == s.peers[p];
  }

  lemma StepKeeps(c: Config, s: State, s': State, step: Step)
    requires DistinctKeys(c) && Inv(c, s) && NextStep(c, s, s', step)
    ensures Inv(c, s')
  {
    hide PeerOk, LedgerOk, VertexKey, DistinctKeys, HandOff, TimeOut, RoundsOk, NetOk, Shape, CanAdvance;
    match step {
      case Advance(p, refs) => AdvanceStep(c, s, s', p, refs);
      case Wait(p) =>
        TimeOutKeeps(c, s.created, p, s.peers[p]);
        TimeOutRound(c, s.peers[p]);
        LocalStep(c, s, s', p, TimeOut(c, s.peers[p]));
      case Deliver(p, m) => DeliverStep(c, s, s', p, m);
      case HandOver(p) =>
        HandOffKeeps(c, s.created, p, s.peers[p]);
        HandOffRound(s.peers[p]);
        LocalStep(c, s, s', p, HandOff(s.peers[p]));
      case Wake(p, coins, orders) => WakeStep(c, s, s', p, coins, orders);
      case Ask(p, row, target, dests) => NetStep(c, s, s'.net);
      case Lose(m) => NetStep(c, s, s'.net);
      case Leave(p) =>
        StatusKeeps(c, s.created, p, s.peers[p], Exited);
        LocalStep(c, s, s', p, s'.peers[p]);
      case Crash(p) =>
        StatusKeeps(c, s.created, p, s.peers[p], Crashed);
        LocalStep(c, s, s', p, s'.peers[p]);
    }
  }

  lemma TimeOutRound(c: Config, p: Peer)
    requires Shape(c, p) && !CanAdvance(c, p) && p.round <= c.lastRound
    ensures TimeOut(c, p).round == p.round
  {
  }

  lemma HandOffRound(p: Peer)
    ensures HandOff(p).round == p.round
  {
  }

  lemma DeploymentKeys(c: Config)
    requires Deployment(c)
    ensures DistinctKeys(c)
  {
  }

  /** Every state of every run satisfies the invariant. */
  lemma {:induction false} InvAlways(c: Config, tr: seq<State>, n: nat)
    requires Deployment(c) && Run(c, tr) && n < |tr|
    ensures Inv(c, tr[n])
  {
    hide Deployment, NextStep, Inv, DistinctKeys, Init;
    if n == 0 {
      InitOk(c, tr[0]);
    } else {
      InvAlways(c, tr, n - 1);
      DeploymentKeys(c);
      assert Next(c, tr[n - 1], tr[n - 1 + 1]);
      var step :| NextStep(c, tr[n - 1], tr[n], step);
      StepKeeps(c, tr[n - 1], tr[n], step);
    }
  }

  lemma ReachableInv(c: Config, s: State)
    requires Deployment(c) && Reachable(c, s)
    ensures Inv(c, s)
  {
    hide Deployment, Inv;
    var tr :| Run(c, tr) && tr[|tr| - 1] == s;
    InvAlways(c, tr, |tr| - 1);
  }
}
