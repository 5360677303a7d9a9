/** The system with its messages as bytes on the wire: its runs are runs of System, so every theorem about those holds of
    them, exactly when no peer id is tricky. */
module Wire {
  import opened ByteStrings
  import opened FiniteSets
  import opened Vertices
  import opened Framing
  import opened Batching
  import opened Forgery
  import opened Protocol
  import opened Invariants
  import opened System
  import opened Theorems
  import opened Waves
  import opened Repairs
  import M = Messages
  import C = Completion

  /** What a message asks the receiver to do. */
  function Meaning(m: Message): M.Delivered {
    match m
    case Packet(_, vertices) => M.Vertices(vertices)
    case Query(_, key, asker) => M.Query(key, asker)
  }

  /** The bytes of a message. */
  function BytesOf(m: Message): Bytes
    requires M.Proper(Meaning(m))
  {
    M.EncodedOk(Meaning(m));
    M.Wire(M.Encoded(Meaning(m)))
  }

  /** What the receiver makes of these bytes; None when the receive fails. */
  function Arrives(m: Message): Option<M.Delivered>
    requires M.Proper(Meaning(m))
  {
    match M.ReadOne(BytesOf(m))
    case None => None
    case Some(read) => M.Decode(read.message)
  }

  function Take(c: Config, p: Peer, d: M.Delivered): Peer {
    match d
    case Vertices(vertices) => AdmitAll(c, p, vertices)
    case Query(key, asker) => LookUp(p, key, asker)
  }

  /** A message arrives as its bytes are received; a failed receive loses it or brings the receiver down.
      Everything else is as in System. */
  ghost predicate WireStep(c: Config, s: State, s': State, step: Step) {
    match step
    case Deliver(p, m) =>
      Runs(s, p) && m in s.net && m.dest == p && M.Proper(Meaning(m))
      && (match Arrives(m)
          case Some(d) => s' == s.(peers := s.peers[p := Take(c, s.peers[p], d)])
          case None => s' == s.(net := s.net - {m}) || s' == s.(peers := s.peers[p := s.peers[p].(status := Crashed)]))
    case _ => NextStep(c, s, s', step)
  }

  ghost predicate WireNext(c: Config, s: State, s': State) {
    exists step :: WireStep(c, s, s', step)
  }

  ghost predicate WireRun(c: Config, tr: seq<State>) {
    tr != [] && Init(c, tr[0]) && forall i :: 0 <= i < |tr| - 1 ==> WireNext(c, tr[i], tr[i + 1])
  }

  ghost predicate WireReachable(c: Config, s: State) {
    exists tr :: WireRun(c, tr) && tr[|tr| - 1] == s
  }

  // ---- Refinement ----

  /** A query always arrives; a packet arrives if its headers are clean, and otherwise not. */
  lemma ArrivesIntact(m: Message)
    requires M.Proper(Meaning(m)) && (m.Packet? ==> Faithful(m.vertices))
    ensures Arrives(m) == if M.Clean(Meaning(m)) then Some(Meaning(m)) else None
  {
    var d := Meaning(m);
    M.EncodedOk(d);
    M.ReadBack(M.Encoded(d), []);
    assert M.Wire(M.Encoded(d)) + [] == M.Wire(M.Encoded(d));
    hide Receive, M.ReadOne, M.Proper, Deliverable, Batching.Packet, CleanPacket;
    assert Arrives(m) == M.Decode(M.Encoded(d));
  }

  lemma WireStepRefines(c: Config, s: State, s': State, step: Step)
    requires NetFaithful(s.net) && WireStep(c, s, s', step)
    ensures Next(c, s, s')
  {
    hide Faithful, M.Proper, Arrives, AdmitAll, LookUp, M.Clean;
    if step.Deliver? {
      ArrivesIntact(step.m);
      if Arrives(step.m).Some? {
        assert NextStep(c, s, s', step);
      } else if s' == s.(net := s.net - {step.m}) {
        assert NextStep(c, s, s', Lose(step.m));
      } else {
        assert NextStep(c, s, s', Step.Crash(step.p));
      }
    } else {
      assert NextStep(c, s, s', step);
    }
  }

  lemma {:induction false} WirePrefix(c: Config, tr: seq<State>, n: nat)
    requires Deployment(c) && Practical(c) && WireRun(c, tr) && n < |tr|
    ensures Run(c, tr[..n + 1])
  {
    hide Deployment, Practical, Next, WireStep, Init;
    if n > 0 {
      var before := tr[..n];
      WirePrefix(c, tr, n - 1);
      EveryPacketArrives(c, before, n - 1);
      assert WireNext(c, tr[n - 1], tr[n - 1 + 1]);
      var step :| WireStep(c, tr[n - 1], tr[n], step);
      WireStepRefines(c, tr[n - 1], tr[n], step);
      var longer := tr[..n + 1];
      forall i | 0 <= i < |longer| - 1 ensures Next(c, longer[i], longer[i + 1]) {
        if i < n - 1 { assert Next(c, before[i], before[i + 1]); }
      }
    }
  }

  /** A run on the wire is a run of the system. */
  lemma WireRunsAreRuns(c: Config, tr: seq<State>)
    requires Deployment(c) && Practical(c) && WireRun(c, tr)
    ensures Run(c, tr)
  {
    WirePrefix(c, tr, |tr| - 1);
    assert tr[..|tr|] == tr;
  }

  lemma WireReachableIsReachable(c: Config, s: State)
    requires Deployment(c) && Practical(c) && WireReachable(c, s)
    ensures Reachable(c, s)
  {
    hide Deployment, Practical, WireNext, Next;
    var tr :| WireRun(c, tr) && tr[|tr| - 1] == s;
    WireRunsAreRuns(c, tr);
  }

  /** The queries of a run ask for a 64-character key and carry a 64-bit id. */
  ghost predicate QueriesOk(net: set<Message>) {
    forall m :: m in net && m.Query? ==> M.Proper(Meaning(m))
  }

  lemma StepQueries(c: Config, s: State, s': State, step: Step)
    requires Sized(c) && PeersOk(c, s) && QueriesOk(s.net) && NextStep(c, s, s', step)
    requires step.Ask? ==> step.p in s.peers && WavesOk(s.peers[step.p])
    ensures QueriesOk(s'.net)
  {
    hide PeerOk, VertexKey, ScanBuffer, WakeUp, AdvanceRound, AllIndexable, ListsRepairs, CanAdvance, ListsPreviousRow, AdmitAll, Shape,
      TimeOut, RepairPackets;
    match step {
      case Ask(p, row, target, dests) =>
        PeerRows(c, s, p);
        assert Digest64(VertexKey(c, row + 1, target));
      case Wake(p, coins, orders) => RepairsArePackets(s.peers[p].vmap, ScanBuffer(c, s.peers[p], coins).repairs, orders);
      case _ =>
    }
  }

  lemma RepairsArePackets(vmap: map<Key, Vertex>, repairs: seq<Repair>, orders: seq<seq<Key>>)
    requires ListsRepairs(vmap, repairs, orders)
    ensures forall m :: m in RepairPackets(vmap, repairs, orders) ==> m.Packet?
  {
    hide ListsRepairs, Batches;
  }

  lemma PeerRows(c: Config, s: State, p: nat)
    requires PeersOk(c, s) && p in s.peers
    ensures |s.peers[p].dag| <= c.lastRound
  {
    hide KeyBag, DagBag, DagOk, VertexKey;
  }

  lemma {:induction false} QueriesAlways(c: Config, tr: seq<State>, n: nat)
    requires Deployment(c) && Sized(c) && Run(c, tr) && n < |tr|
    ensures QueriesOk(tr[n].net)
  {
    hide Deployment, Sized, NextStep, PeersOk, QueriesOk, WavesOk, LedgerOk, RoundsOk, NetOk;
    if n == 0 {
      assert tr[0].net == {};
      NoQueries();
    } else {
      QueriesAlways(c, tr, n - 1);
      InvAlways(c, tr, n - 1);
      InvPeers(c, tr[n - 1]);
      assert Next(c, tr[n - 1], tr[n - 1 + 1]);
      var step :| NextStep(c, tr[n - 1], tr[n], step);
      if step.Ask? {
        AskedByPeer(c, tr[n - 1], tr[n], step);
        WavesAlways(c, tr, n - 1, step.p);
      }
      StepQueries(c, tr[n - 1], tr[n], step);
    }
  }

  lemma NoQueries()
    ensures QueriesOk({})
  {
  }

  lemma AskedByPeer(c: Config, s: State, s': State, step: Step)
    requires step.Ask? && NextStep(c, s, s', step)
    ensures step.p in s.peers
  {
  }

  /** Every message of every run has bytes that can be delivered, so a delivery on the wire excludes none. */
  lemma EveryMessageHasBytes(c: Config, tr: seq<State>, n: nat, m: Message)
    requires Deployment(c) && Practical(c) && Run(c, tr) && n < |tr| && m in tr[n].net
    ensures M.Proper(Meaning(m))
  {
    hide Deployment, Run, Receive, Deliverable, Batching.Packet, PeersOk, RoundsOk, NewPayload, KeyOf, VertexKey;
    if m.Packet? {
      EveryPacketArrives(c, tr, n);
      InvAlways(c, tr, n);
      var vs, created := m.vertices, tr[n].created;
      assert AllGenuine(c, created, vs);
      forall i | 0 <= i < |vs| ensures vs[i].payload != [] {
        assert Genuine(c, created, vs[i]) && EntryOk(c, created, KeyOf(c, vs[i]));
        PayloadText(vs[i].round, vs[i].pid);
      }
      DeliverableSize(vs);
    } else {
      QueriesAlways(c, tr, n);
    }
  }

  /** Agreement with the bytes taken into account. */
  lemma AgreementOnTheWire(c: Config, s: State, p: nat, q: nat, k: Key, i: nat, j: nat)
    requires Deployment(c) && Practical(c) && WireReachable(c, s) && p in s.peers && q in s.peers
    requires i < |s.peers[p].dag| && k in s.peers[p].dag[i] && j < |s.peers[q].dag| && k in s.peers[q].dag[j]
    ensures i == j && k in s.peers[p].vmap && k in s.peers[q].vmap && s.peers[p].vmap[k] == s.peers[q].vmap[k]
    ensures forall a :: Ancestor(s.peers[p].vmap, a, k) <==> Ancestor(s.peers[q].vmap, a, k)
    ensures forall a :: Ancestor(s.peers[p].vmap, a, k) ==> InDag(s.peers[p].dag, a) && InDag(s.peers[q].dag, a)
  {
    hide Deployment, Practical, WireReachable, Reachable;
    WireReachableIsReachable(c, s);
    Agreement(c, s, p, q, k, i, j);
  }

  // ---- A run with a forged record ----

  /** Peers that share a vertex hold the same record for it, in every run on the wire. */
  ghost predicate SameRecords(c: Config) {
    forall s, p, q, k :: WireReachable(c, s) && Share(s, p, q, k) ==> SameRecord(s, p, q, k)
  }

  ghost predicate Share(s: State, p: nat, q: nat, k: Key) {
    p in s.peers && q in s.peers && InDag(s.peers[p].dag, k) && InDag(s.peers[q].dag, k)
  }

  ghost predicate SameRecord(s: State, p: nat, q: nat, k: Key)
    requires p in s.peers && q in s.peers
  {
    k in s.peers[p].vmap && k in s.peers[q].vmap && s.peers[p].vmap[k] == s.peers[q].vmap[k]
  }

  /** A peer in round 1 with its own vertex only. */
  function Started(c: Config, me: nat): Peer {
    var k := VertexKey(c, 1, me);
    InitialPeer(c).(round := 1, dag := [{k}], vmap := map[k := FirstVertex(me)])
  }

  lemma FirstAdvance(c: Config, me: nat)
    requires c.lastRound >= 1
    ensures Shape(c, InitialPeer(c)) && CanAdvance(c, InitialPeer(c)) && ListsPreviousRow(c, InitialPeer(c), [])
    ensures AdvanceRound(c, me, InitialPeer(c), []) == Started(c, me) && NewVertex(1, me, []) == FirstVertex(me)
    ensures VertexKey(c, 1, me) == KeyOf(c, FirstVertex(me))
  {
    hide NewPayload;
  }

  /** Peer p after it has received q's first vertex, forged, and scanned its buffer. */
  lemma ForgeryEnters(c: Config, p: nat, q: nat, vs: seq<Vertex>) returns (coins: seq<bool>)
    requires p in c.peers && q in c.peers && p != q && c.lastRound >= 1 && DistinctKeys(c) && Forged(Some(vs), q)
    ensures var me := HandOff(AdmitAll(c, Started(c, p), vs));
            && AllIndexable(me.round, me.dag, me.buffer) && |coins| == |me.buffer|
            && ScanBuffer(c, me, coins).repairs == [] && me.requests == []
            && WakeUp(c, me, coins).dag == [{VertexKey(c, 1, p), VertexKey(c, 1, q)}]
            && VertexKey(c, 1, q) in WakeUp(c, me, coins).vmap
            && WakeUp(c, me, coins).vmap[VertexKey(c, 1, q)] == vs[0]
  {
    hide VertexKey, DistinctKeys, NewPayload;
    assert VertexKey(c, 1, p) != VertexKey(c, 1, q) by { FirstKeysDiffer(c, p, q); }
    var forged, other := vs[0], vs[1];
    var one := Admit(c, Started(c, p), forged);
    assert one == Started(c, p).(temp := [forged], vmap := Started(c, p).vmap[VertexKey(c, 1, q) := forged]);
    var two := Admit(c, one, other);
    assert vs[1..] == [other] && vs[1..][1..] == [];
    assert AdmitAll(c, one, vs[1..]) == two;
    var me := HandOff(two);
    if two == one {
      coins := [false];
      ScanForged(c, me, forged, []);
    } else {
      coins := [false, false];
      assert me.buffer == [other, forged];
      ScanForged(c, me, forged, [other]);
    }
    assert {VertexKey(c, 1, p)} + {VertexKey(c, 1, q)} == {VertexKey(c, 1, p), VertexKey(c, 1, q)};
  }

  lemma FirstKeysDiffer(c: Config, p: nat, q: nat)
    requires p in c.peers && q in c.peers && p != q && c.lastRound >= 1 && DistinctKeys(c)
    ensures VertexKey(c, 1, p) != VertexKey(c, 1, q)
  {
  }

  lemma ScanForged(c: Config, me: Peer, forged: Vertex, before: seq<Vertex>)
    requires me.round == 1 && |me.dag| == 1 && me.leftover == {} && me.buffer == before + [forged] && forged.round == 1
    requires before == [] || (|before| == 1 && before[0].round > 1)
    ensures AllIndexable(me.round, me.dag, me.buffer)
    ensures var coins := if before == [] then [false] else [false, false];
            ScanBuffer(c, me, coins) == Pass([me.dag[0] + {KeyOf(c, forged)}], before, {}, [])
  {
    hide KeyOf;
    var start := Pass(me.dag, [], {}, []);
    if before == [] {
      assert me.buffer == [forged] && me.buffer[1..] == [];
      assert ScanAll(c, 1, start, [forged], [false]) == ScanOne(c, 1, start, forged, false);
    } else {
      assert me.buffer == [before[0], forged] && me.buffer[1..] == [forged] && me.buffer[1..][1..] == [];
      var coins := [false, false];
      assert coins[1..] == [false];
      var next := ScanOne(c, 1, start, before[0], coins[0]);
      assert next == Pass(me.dag, [before[0]], {}, []) && before == [before[0]];
      assert ScanAll(c, 1, next, [forged], [false]) == ScanOne(c, 1, next, forged, false);
    }
  }

  lemma ForgedArrives(p: nat, q: nat)
    requires q < TWO_64 && Tricky(q)
    ensures var m := Message.Packet(p, [FirstVertex(q)]);
            M.Proper(Meaning(m)) && Arrives(m).Some? && Arrives(m).value.Vertices? && Forged(Some(Arrives(m).value.vertices), q)
  {
    var v, m := FirstVertex(q), Message.Packet(p, [FirstVertex(q)]);
    FirstVertexBuilt(q);
    ForgedRecord(q);
    hide Receive, Deliverable, Batching.Packet, NewPayload, Tricky, Forged, M.ReadOne;
    var d := Meaning(m);
    assert M.Proper(d) by { assert |v.payload| > 0; }
    M.EncodedOk(d);
    M.ReadBack(M.Encoded(d), []);
    assert M.Wire(M.Encoded(d)) + [] == M.Wire(M.Encoded(d));
    assert Arrives(m) == M.Decode(M.Encoded(d));
    assert Receive(Batching.Packet([v])).Some? by { ForgedSome(Receive(Batching.Packet([v])), q); }
  }

  lemma ForgedSome(received: Option<seq<Vertex>>, pid: nat)
    requires Forged(received, pid)
    ensures received.Some?
  {
  }

  lemma StartStep(c: Config, s: State, q: nat) returns (s': State)
    requires c.lastRound >= 1 && q in s.peers && s.peers[q] == InitialPeer(c)
    ensures WireNext(c, s, s') && s'.peers == s.peers[q := Started(c, q)]
    ensures s.net <= s'.net && forall r :: r in c.peers && r != q ==> Message.Packet(r, [FirstVertex(q)]) in s'.net
  {
    FirstAdvance(c, q);
    hide AdvanceRound, Started, FirstVertex, KeyOf, Shape, CanAdvance, ListsPreviousRow, NewPayload;
    var v := FirstVertex(q);
    StartedFields(c, q);
    s' := State(s.peers[q := Started(c, q)], s.net + Broadcast(c, q, {}, v), s.created[KeyOf(c, v) := v]);
    assert NextStep(c, s, s', Advance(q, []));
    assert WireStep(c, s, s', Advance(q, []));
    forall r | r in c.peers && r != q ensures Message.Packet(r, [v]) in s'.net {
      assert Message.Packet(r, [v]) in Broadcast(c, q, {}, v);
    }
  }

  lemma StartedFields(c: Config, q: nat)
    ensures InitialPeer(c).round == 0 && InitialPeer(c).status == Running && InitialPeer(c).blackList == {}
    ensures Started(c, q).round == 1 && Started(c, q).status == Running && Started(c, q).blackList == {}
    ensures VertexKey(c, 1, q) in Started(c, q).vmap && Started(c, q).vmap[VertexKey(c, 1, q)] == FirstVertex(q)
    ensures |Started(c, q).dag| == 1 && VertexKey(c, 1, q) in Started(c, q).dag[0]
  {
    hide VertexKey;
  }

  lemma ForgedStep(c: Config, s: State, p: nat, q: nat) returns (s': State, vs: seq<Vertex>)
    requires q < TWO_64 && Tricky(q) && Runs(s, p) && Message.Packet(p, [FirstVertex(q)]) in s.net
    ensures Forged(Some(vs), q) && WireNext(c, s, s')
    ensures s'.peers == s.peers[p := AdmitAll(c, s.peers[p], vs)]
  {
    hide Tricky, Forged, M.Proper, Arrives, AdmitAll, FirstVertex;
    ForgedArrives(p, q);
    var m := Message.Packet(p, [FirstVertex(q)]);
    vs := Arrives(m).value.vertices;
    s' := s.(peers := s.peers[p := AdmitAll(c, s.peers[p], vs)]);
    assert WireStep(c, s, s', Deliver(p, m));
  }

  lemma HandOverStep(c: Config, s: State, p: nat) returns (s': State)
    requires Runs(s, p)
    ensures WireNext(c, s, s') && s' == s.(peers := s.peers[p := HandOff(s.peers[p])])
  {
    s' := s.(peers := s.peers[p := HandOff(s.peers[p])]);
    assert WireStep(c, s, s', Step.HandOver(p));
  }

  lemma QuietWakeStep(c: Config, s: State, p: nat, coins: seq<bool>) returns (s': State)
    requires Runs(s, p) && AllIndexable(s.peers[p].round, s.peers[p].dag, s.peers[p].buffer) && |coins| == |s.peers[p].buffer|
    requires ScanBuffer(c, s.peers[p], coins).repairs == []
    ensures WireNext(c, s, s') && s'.peers == s.peers[p := WakeUp(c, s.peers[p], coins)]
  {
    hide ScanBuffer, WakeUp, AllIndexable;
    var me := s.peers[p];
    assert ListsRepairs(me.vmap, [], []);
    s' := State(s.peers[p := WakeUp(c, me, coins)], s.net + Answers(me.requests) + RepairPackets(me.vmap, [], []), s.created);
    assert WireStep(c, s, s', Step.Wake(p, coins, []));
  }

  lemma AdmitAllStatus(c: Config, p: Peer, vs: seq<Vertex>)
    requires |vs| == 2
    ensures AdmitAll(c, p, vs).status == p.status
  {
    hide KeyOf;
    assert AdmitAll(c, p, vs) == AdmitAll(c, Admit(c, p, vs[0]), vs[1..]);
    assert vs[1..][1..] == [];
  }

  /** Both peers have started, and q's first vertex is on its way to p. */
  ghost predicate OnItsWay(c: Config, s: State, p: nat, q: nat) {
    && p in s.peers && q in s.peers && s.peers[p] == Started(c, p) && s.peers[q] == Started(c, q)
    && Message.Packet(p, [FirstVertex(q)]) in s.net
  }

  lemma BothStart(c: Config, p: nat, q: nat) returns (s0: State, s1: State, s2: State)
    requires c.lastRound >= 1 && p in c.peers && q in c.peers && p != q
    ensures Init(c, s0) && WireNext(c, s0, s1) && WireNext(c, s1, s2) && OnItsWay(c, s2, p, q)
  {
    hide WireNext, Started, FirstVertex, InitialPeer;
    s0 := State(map r | r in c.peers :: InitialPeer(c), {}, map[]);
    s1 := StartStep(c, s0, q);
    s2 := StartStep(c, s1, p);
  }

  lemma ForgeryArrives(c: Config, s: State, p: nat, q: nat) returns (s1: State, s2: State, s3: State)
    requires DistinctKeys(c) && c.lastRound >= 1 && p in c.peers && q in c.peers && p != q && q < TWO_64 && Tricky(q)
    requires OnItsWay(c, s, p, q)
    ensures WireNext(c, s, s1) && WireNext(c, s1, s2) && WireNext(c, s2, s3)
    ensures Share(s3, p, q, VertexKey(c, 1, q)) && !SameRecord(s3, p, q, VertexKey(c, 1, q))
  {
    hide DistinctKeys, Tricky, Forged, WireNext, AdmitAll, WakeUp, Started, FirstVertex, ScanBuffer, AllIndexable, VertexKey;
    StartedFields(c, p);
    StartedFields(c, q);
    var vs;
    s1, vs := ForgedStep(c, s, p, q);
    var coins := ForgeryEnters(c, p, q, vs);
    ForgedFields(vs, q);
    AdmitAllStatus(c, Started(c, p), vs);
    s2 := HandOverStep(c, s1, p);
    s3 := QuietWakeStep(c, s2, p, coins);
    var k := VertexKey(c, 1, q);
    assert k in s3.peers[p].dag[0] && k in s3.peers[q].dag[0];
  }

  /** Every other peer can end up with another record than the creator under the key of a tricky peer's first vertex. */
  lemma ForgedRun(c: Config, p: nat, q: nat) returns (s: State)
    requires Deployment(c) && c.lastRound >= 1 && p in c.peers && q in c.peers && p != q && q < TWO_64 && Tricky(q)
    ensures WireReachable(c, s) && Share(s, p, q, VertexKey(c, 1, q)) && !SameRecord(s, p, q, VertexKey(c, 1, q))
  {
    DeploymentKeys(c);
    hide Deployment, DistinctKeys, Tricky, WireNext, VertexKey, Share, SameRecord, Init, OnItsWay;
    var s0, s1, s2 := BothStart(c, p, q);
    var s3, s4, s5 := ForgeryArrives(c, s2, p, q);
    s := s5;
    hide WireReachable;
    FirstState(c, s0);
    OneMore(c, s0, s1);
    OneMore(c, s1, s2);
    OneMore(c, s2, s3);
    OneMore(c, s3, s4);
    OneMore(c, s4, s5);
  }

  lemma FirstState(c: Config, s: State)
    requires Init(c, s)
    ensures WireReachable(c, s)
  {
    hide Init;
    assert WireRun(c, [s]);
  }

  lemma OneMore(c: Config, s: State, s': State)
    requires WireReachable(c, s) && WireNext(c, s, s')
    ensures WireReachable(c, s')
  {
    hide Init, WireNext;
    var tr :| WireRun(c, tr) && tr[|tr| - 1] == s;
    var longer := tr + [s'];
    forall i | 0 <= i < |longer| - 1 ensures WireNext(c, longer[i], longer[i + 1]) {
      if i < |tr| - 1 { assert WireNext(c, tr[i], tr[i + 1]); }
    }
    assert WireRun(c, longer) && longer[|longer| - 1] == s';
  }

  lemma ForgedFields(vs: seq<Vertex>, q: nat)
    requires Forged(Some(vs), q)
    ensures |vs| == 2 && vs[0] != FirstVertex(q)
  {
    PayloadText(1, q);
  }

  /** Among two or more peers, agreement on records holds of all runs on the wire exactly when no peer id is tricky. */
  lemma AgreementExactly(c: Config)
    requires Deployment(c) && Sized(c) && c.lastRound >= 1 && |c.peers| >= 2
    ensures SameRecords(c) <==> forall q :: q in c.peers ==> !Tricky(q)
  {
    hide Deployment, WireReachable, VertexKey, Tricky, Crowd;
    if forall q :: q in c.peers ==> !Tricky(q) {
      forall s, p, q, k | WireReachable(c, s) && Share(s, p, q, k) ensures SameRecord(s, p, q, k) {
        var i: nat :| i < |s.peers[p].dag| && k in s.peers[p].dag[i];
        var j: nat :| j < |s.peers[q].dag| && k in s.peers[q].dag[j];
        AgreementOnTheWire(c, s, p, q, k, i, j);
      }
    } else {
      var q :| q in c.peers && Tricky(q);
      var p := Another(c.peers, q);
      var s := ForgedRun(c, p, q);
    }
  }

  lemma Another(peers: set<nat>, q: nat) returns (p: nat)
    requires |peers| >= 2
    ensures p in peers && p != q
  {
    if peers <= {q} { SubsetSize(peers, {q}); }
    p :| p in peers && p != q;
  }

  // ---- Ids for which nothing is lost ----

  /** No two '#' three apart in the id and, if the run gets to round 35, no '#' as its third byte. */
  predicate CleanId(pid: nat, lastRound: nat)
    requires pid < TWO_64
  {
    && (forall i :: 0 <= i < 5 ==> !(BE64(pid)[i] == HASH && BE64(pid)[i + 3] == HASH))
    && (lastRound >= 35 ==> BE64(pid)[2] != HASH)
  }

  lemma {:induction false} AllClean(size: nat, vs: seq<Vertex>, lastRound: nat)
    requires size <= MAX_STREAM_SIZE && lastRound < 8960 && AllRepresentable(vs)
    requires forall i :: 0 <= i < |vs| ==> 0 <= vs[i].round <= lastRound && CleanId(vs[i].pid, lastRound)
    ensures CleanStream(BE32(size), vs)
    decreases |vs|
  {
    if vs != [] {
      hide Representable, CleanHeader;
      assert Representable(vs[0]) && CleanId(vs[0].pid, lastRound);
      CleanHeaderExactly(size, vs[0]);
      AllClean(0, vs[1..], lastRound);
      assert BE32(0) == Zeros(4);
    }
  }

  ghost predicate ReceivedAsSent(m: Message) {
    m.Packet? ==> Deliverable(m.vertices) && Receive(Batching.Packet(m.vertices)) == Some(m.vertices)
  }

  /** With such ids and fewer than 8960 rounds every packet of every run arrives intact. */
  lemma EveryPacketIntact(c: Config, s: State, m: Message)
    requires Deployment(c) && Practical(c) && Reachable(c, s) && m in s.net
    requires c.lastRound < 8960 && forall q :: q in c.peers ==> CleanId(q, c.lastRound)
    ensures ReceivedAsSent(m)
  {
    hide Deployment, Practical, Reachable, Receive, CleanId, Deliverable, Batching.Packet, PeersOk, RoundsOk, VertexKey;
    SmallIds(c);
    ReachablePackets(c, s);
    ReachableInv(c, s);
    if m.Packet? {
      var vs, created := m.vertices, s.created;
      assert Faithful(vs);
      assert AllGenuine(c, created, vs);
      forall i | 0 <= i < |vs| ensures 0 <= vs[i].round <= c.lastRound && CleanId(vs[i].pid, c.lastRound) {
        assert Genuine(c, created, vs[i]) && EntryOk(c, created, KeyOf(c, vs[i]));
      }
      DeliverableSize(vs);
      AllClean(StreamSize(vs), vs, c.lastRound);
    }
  }

  lemma DeliverableSize(vs: seq<Vertex>)
    ensures Deliverable(vs) ==> AllRepresentable(vs) && |Batching.Packet(vs)| == StreamSize(vs)
  {
    if Deliverable(vs) { PacketStream(vs); }
  }

  /** A round in which this id makes the header unclean. */
  predicate Spoils(pid: nat, round: nat)
    requires pid < TWO_64
  {
    || (exists i :: 0 <= i < 5 && BE64(pid)[i] == HASH && BE64(pid)[i + 3] == HASH)
    || (round % 256 == 35 && BE64(pid)[2] == HASH)
  }

  lemma SpoiledRound(pid: nat, lastRound: nat) returns (round: nat)
    requires pid < TWO_64 && lastRound >= 1 && !CleanId(pid, lastRound)
    ensures 1 <= round <= lastRound && Spoils(pid, round)
  {
    round := if lastRound >= 35 then 35 else 1;
  }

  /** Then the vertex of that round does not arrive. */
  lemma SpoiledVertex(v: Vertex)
    requires Deliverable([v]) && 0 <= v.round < 8960 && StreamSize([v]) <= MAX_STREAM_SIZE && v.pid < TWO_64 && Spoils(v.pid, v.round)
    ensures !CleanPacket([v])
  {
    hide BE32, BE64, CleanHeader, EncodedSize;
    CleanHeaderExactly(StreamSize([v]), v);
  }

  /** For fewer than 8960 rounds and two or more peers, every packet of every run is received as it was sent exactly when all
      ids are clean: the runs that complete contain a packet spoiled by any other id. */
  lemma IntactExactly(c: Config)
    requires Deployment(c) && Practical(c) && 1 <= c.lastRound < 8960 && |c.peers| >= 2
    ensures (forall s, m :: Reachable(c, s) && m in s.net ==> ReceivedAsSent(m)) <==> forall q :: q in c.peers ==> CleanId(q, c.lastRound)
  {
    hide Deployment, Practical, Reachable, ReceivedAsSent, CleanId, Crowd;
    SmallIds(c);
    if forall q :: q in c.peers ==> CleanId(q, c.lastRound) {
      forall s, m | Reachable(c, s) && m in s.net ensures ReceivedAsSent(m) { EveryPacketIntact(c, s, m); }
    } else {
      var q :| q in c.peers && !CleanId(q, c.lastRound);
      var s, m := SpoiledPacket(c, q);
    }
  }

  lemma SmallIds(c: Config)
    requires Practical(c)
    ensures forall q :: q in c.peers ==> q < TWO_64
  {
  }

  lemma SpoiledPacket(c: Config, q: nat) returns (s: State, m: Message)
    requires Deployment(c) && Practical(c) && 1 <= c.lastRound < 8960 && |c.peers| >= 2
    requires q in c.peers && q < TWO_64 && !CleanId(q, c.lastRound)
    ensures Reachable(c, s) && m in s.net && !ReceivedAsSent(m)
  {
    hide Deployment, Practical, Reachable, CleanId, Spoils, Receive, Deliverable, Batching.Packet, CleanPacket, C.Done, C.Sent;
    var round := SpoiledRound(q, c.lastRound);
    s := C.CanClimb(c, round);
    var p := Another(c.peers, q);
    var v := C.OnItsWay(c, s, round - 1, p, q);
    m := Message.Packet(p, [v]);
    ReachablePackets(c, s);
    assert Faithful(m.vertices);
    DeliverableSize([v]);
    SpoiledVertex(v);
  }

  // ---- With clean ids the two systems are the same ----

  lemma StepOnTheWire(c: Config, s: State, s': State, step: Step)
    requires NextStep(c, s, s', step)
    requires forall m :: m in s.net ==> M.Proper(Meaning(m)) && (m.Packet? ==> Faithful(m.vertices)) && ReceivedAsSent(m)
    ensures WireNext(c, s, s')
  {
    hide Faithful, M.Proper, AdmitAll, LookUp, M.Clean, Arrives;
    if step.Deliver? {
      var m := step.m;
      ArrivesIntact(m);
      assert M.Clean(Meaning(m)) by { CleanWhenReceived(m); }
    }
    assert WireStep(c, s, s', step);
  }

  lemma CleanWhenReceived(m: Message)
    requires M.Proper(Meaning(m)) && (m.Packet? ==> Faithful(m.vertices)) && ReceivedAsSent(m)
    ensures M.Clean(Meaning(m))
  {
    hide Receive, CleanPacket, Batching.Packet, Deliverable;
  }

  /** Every run of the system is a run on the wire: what can happen at all can happen with bytes. */
  lemma RunsAreWireRuns(c: Config, tr: seq<State>)
    requires Deployment(c) && Practical(c) && Run(c, tr)
    requires c.lastRound < 8960 && forall q :: q in c.peers ==> CleanId(q, c.lastRound)
    ensures WireRun(c, tr)
  {
    hide Deployment, Practical, NextStep, WireNext, Init, CleanId, Faithful, ReceivedAsSent, M.Proper;
    forall i | 0 <= i < |tr| - 1 ensures WireNext(c, tr[i], tr[i + 1]) {
      EveryPacketArrives(c, tr, i);
      PrefixReachable(c, tr, i);
      forall m | m in tr[i].net ensures M.Proper(Meaning(m)) && ReceivedAsSent(m) {
        EveryMessageHasBytes(c, tr, i, m);
        EveryPacketIntact(c, tr[i], m);
      }
      assert Next(c, tr[i], tr[i + 1]);
      var step :| NextStep(c, tr[i], tr[i + 1], step);
      StepOnTheWire(c, tr[i], tr[i + 1], step);
    }
  }

  lemma PrefixReachable(c: Config, tr: seq<State>, i: nat)
    requires Run(c, tr) && i < |tr|
    ensures Reachable(c, tr[i])
  {
    hide Next, Init;
    var before := tr[..i + 1];
    forall j | 0 <= j < |before| - 1 ensures Next(c, before[j], before[j + 1]) { assert Next(c, tr[j], tr[j + 1]); }
    assert Run(c, before) && before[|before| - 1] == tr[i];
  }
}
