/** Receiving, answering and repairing, spelled out: what a delivery puts into the map, who is answered and who is sent what. */
module Delivery {
  import opened ByteStrings
  import opened FiniteSets
  import opened Identity
  import opened Vertices
  import opened Batching
  import opened Protocol
  import opened Invariants
  import opened System
  import opened Theorems
  import opened Repairs
  import A = Atomicity
  import C = Completion

  // ---- Admission ----

  /** Round 1, or 2f + 1 references. */
  predicate Admissible(c: Config, v: Vertex) {
    v.round == 1 || |v.refs| >= 2 * ((|c.peers| - 1) / 3) + 1
  }

  function Hash(c: Config, v: Vertex): Key {
    c.hash(Id(v.round, v.pid))
  }

  /** `news` is what a packet adds to what a peer knows: admissible vertices of the packet under new keys, no key twice, and
      none left out. */
  ghost predicate Adds(c: Config, known: map<Key, Vertex>, vs: seq<Vertex>, later: map<Key, Vertex>, news: seq<Vertex>) {
    && (forall k :: k in known ==> k in later && later[k] == known[k])
    && (forall k :: k in later && k !in known ==> exists i :: 0 <= i < |news| && Hash(c, news[i]) == k)
    && (forall i :: 0 <= i < |news| ==>
          && news[i] in vs && Admissible(c, news[i])
          && Hash(c, news[i]) !in known && Hash(c, news[i]) in later && later[Hash(c, news[i])] == news[i])
    && (forall i, j :: 0 <= i < j < |news| ==> Hash(c, news[i]) != Hash(c, news[j]))
    && (forall i :: 0 <= i < |vs| && Admissible(c, vs[i]) ==> Hash(c, vs[i]) in later)
  }

  lemma AdmitOneLaw(c: Config, p: Peer, v: Vertex)
    requires c.peers != {}
    ensures Admit(c, p, v) == if Admissible(c, v) && Hash(c, v) !in p.vmap then p.(temp := [v] + p.temp, vmap := p.vmap[Hash(c, v) := v]) else p
  {
  }

  lemma AddsNone(c: Config, known: map<Key, Vertex>)
    ensures Adds(c, known, [], known, [])
  {
  }

  lemma AddsOne(c: Config, known: map<Key, Vertex>, v: Vertex, vs: seq<Vertex>, later: map<Key, Vertex>, news: seq<Vertex>)
    requires Admissible(c, v) && Hash(c, v) !in known && Adds(c, known[Hash(c, v) := v], vs, later, news)
    ensures Adds(c, known, [v] + vs, later, news + [v])
  {
    hide Hash, Admissible;
    var all, longer := [v] + vs, news + [v];
    forall k | k in later && k !in known ensures exists i :: 0 <= i < |longer| && Hash(c, longer[i]) == k {
      if k == Hash(c, v) {
        assert longer[|news|] == v;
      } else {
        var i :| 0 <= i < |news| && Hash(c, news[i]) == k;
        assert longer[i] == news[i];
      }
    }
    assert forall i :: 0 <= i < |vs| ==> all[i + 1] == vs[i];
  }

  lemma AddsNothing(c: Config, known: map<Key, Vertex>, v: Vertex, vs: seq<Vertex>, later: map<Key, Vertex>, news: seq<Vertex>)
    requires !Admissible(c, v) || Hash(c, v) in known
    requires Adds(c, known, vs, later, news)
    ensures Adds(c, known, [v] + vs, later, news)
  {
    hide Hash, Admissible;
  }

  lemma {:induction false} AdmitAllLaw(c: Config, p: Peer, vs: seq<Vertex>) returns (news: seq<Vertex>)
    requires c.peers != {}
    ensures var p' := AdmitAll(c, p, vs);
            p' == p.(vmap := p'.vmap, temp := news + p.temp) && Adds(c, p.vmap, vs, p'.vmap, news)
    decreases |vs|
  {
    hide Adds, Admissible, Hash, Admit;
    if vs == [] {
      news := [];
      AddsNone(c, p.vmap);
    } else {
      var v, next := vs[0], Admit(c, p, vs[0]);
      AdmitOneLaw(c, p, v);
      assert vs == [v] + vs[1..];
      var rest := AdmitAllLaw(c, next, vs[1..]);
      var later := AdmitAll(c, next, vs[1..]);
      if Admissible(c, v) && Hash(c, v) !in p.vmap {
        news := rest + [v];
        AddsOne(c, p.vmap, v, vs[1..], later.vmap, rest);
        assert rest + next.temp == news + p.temp;
      } else {
        news := rest;
        AddsNothing(c, p.vmap, v, vs[1..], later.vmap, rest);
      }
    }
  }

  /** Any packet, from anywhere: a key is new after its delivery exactly when the packet has an admissible vertex under it that
      was unknown. What is new goes to the front of the server's list, each vertex once; nothing else changes. */
  lemma AdmissionLaw(c: Config, s: State, s': State, p: nat, vs: seq<Vertex>)
    requires c.peers != {} && NextStep(c, s, s', Deliver(p, Packet(p, vs)))
    ensures p in s.peers && p in s'.peers && s' == s.(peers := s.peers[p := s'.peers[p]])
    ensures var me, me' := s.peers[p], s'.peers[p];
            && me' == me.(vmap := me'.vmap, temp := me'.temp)
            && (forall k :: k !in me.vmap ==> (k in me'.vmap <==> exists i :: 0 <= i < |vs| && Hash(c, vs[i]) == k && Admissible(c, vs[i])))
            && exists news :: me'.temp == news + me.temp && Adds(c, me.vmap, vs, me'.vmap, news)
  {
    var me, me' := s.peers[p], s'.peers[p];
    hide AdmitAll;
    var news := AdmitAllLaw(c, me, vs);
    NewKeys(c, me.vmap, vs, me'.vmap, news);
  }

  lemma NewKeys(c: Config, known: map<Key, Vertex>, vs: seq<Vertex>, later: map<Key, Vertex>, news: seq<Vertex>)
    requires Adds(c, known, vs, later, news)
    ensures forall k :: k !in known ==> (k in later <==> exists i :: 0 <= i < |vs| && Hash(c, vs[i]) == k && Admissible(c, vs[i]))
  {
    hide Hash, Admissible;
    forall k | k !in known && k in later ensures exists i :: 0 <= i < |vs| && Hash(c, vs[i]) == k && Admissible(c, vs[i]) {
      var j :| 0 <= j < |news| && Hash(c, news[j]) == k;
      var i :| 0 <= i < |vs| && vs[i] == news[j];
    }
  }

  /** In a run nothing that arrives is turned away: after the delivery of a packet the peer knows all its vertices. */
  lemma AllAdmitted(c: Config, s: State, s': State, p: nat, vs: seq<Vertex>)
    requires Deployment(c) && Reachable(c, s) && NextStep(c, s, s', Deliver(p, Packet(p, vs)))
    ensures p in s'.peers
    ensures forall i :: 0 <= i < |vs| ==> Hash(c, vs[i]) in s'.peers[p].vmap && s'.peers[p].vmap[Hash(c, vs[i])] == vs[i]
  {
    hide Reachable, Inv, AdmitAll, KeyBag, DagBag, DagOk, DistinctKeys, Id, Admissible;
    ReachableInv(c, s);
    PeerView(c, s, p);
    AdmissionLaw(c, s, s', p, vs);
    var me, me' := s.peers[p], s'.peers[p];
    var news :| me'.temp == news + me.temp && Adds(c, me.vmap, vs, me'.vmap, news);
    GenuinePacket(c, s, p, vs);
    forall i | 0 <= i < |vs| ensures Hash(c, vs[i]) in me'.vmap && me'.vmap[Hash(c, vs[i])] == vs[i] {
      var v, k := vs[i], Hash(c, vs[i]);
      GenuineAdmissible(c, s.created, v);
      assert k in me'.vmap;
      if k in me.vmap {
        assert me.vmap[k] == s.created[k] == v;
      } else {
        var j :| 0 <= j < |news| && Hash(c, news[j]) == k;
        assert news[j] in vs;
        SameRecordAs(c, s.created, vs, news[j], i);
      }
    }
  }

  lemma GenuinePacket(c: Config, s: State, p: nat, vs: seq<Vertex>)
    requires Inv(c, s) && Packet(p, vs) in s.net
    ensures AllGenuine(c, s.created, vs) && LedgerOk(c, s.created)
  {
    hide PeerOk, LedgerOk, Genuine;
  }

  lemma SameRecordAs(c: Config, created: Ledger, vs: seq<Vertex>, v: Vertex, i: nat)
    requires AllGenuine(c, created, vs) && v in vs && i < |vs| && Hash(c, v) == Hash(c, vs[i])
    ensures v == vs[i]
  {
    hide Id;
    var j :| 0 <= j < |vs| && vs[j] == v;
    assert Genuine(c, created, vs[j]) && Genuine(c, created, vs[i]);
  }

  lemma GenuineAdmissible(c: Config, created: Ledger, v: Vertex)
    requires c.peers != {} && LedgerOk(c, created) && Genuine(c, created, v)
    ensures Admissible(c, v) && Hash(c, v) in created && created[Hash(c, v)] == v
  {
    hide Id, NewPayload;
    assert EntryOk(c, created, KeyOf(c, v));
  }

  // ---- Requests ----

  /** A request for a known vertex is kept with who asked; any other request is forgotten. Nothing else changes. */
  lemma QueryLaw(c: Config, s: State, s': State, p: nat, k: Key, asker: nat)
    requires NextStep(c, s, s', Deliver(p, Query(p, k, asker)))
    ensures p in s.peers && p in s'.peers && s' == s.(peers := s.peers[p := s'.peers[p]])
    ensures var me, me' := s.peers[p], s'.peers[p];
            && (k !in me.vmap ==> me' == me)
            && (k in me.vmap ==> me' == me.(tempRequests := [Request(asker, me.vmap[k])] + me.tempRequests))
  {
  }

  /** The handoff moves both lists, in order, behind what the scanner already has. */
  lemma HandOverLaw(c: Config, s: State, s': State, p: nat)
    requires NextStep(c, s, s', HandOver(p))
    ensures p in s.peers && p in s'.peers && s' == s.(peers := s.peers[p := s'.peers[p]])
    ensures var me := s.peers[p];
            s'.peers[p] == me.(buffer := me.buffer + me.temp, requests := me.requests + me.tempRequests, temp := [], tempRequests := [])
  {
  }

  /** A request leaves a peer exactly for a known row with a peer in it who is not blacklisted and whose vertex is unknown; it
      goes to f + 1 or f + 2 others, the creator among them, and names the asker. */
  lemma AskLaw(c: Config, s: State, s': State, p: nat, row: nat, target: nat, dests: set<nat>)
    requires c.peers != {}
    ensures NextStep(c, s, s', Ask(p, row, target, dests)) <==>
              && p in s.peers && s.peers[p].status == Running && row in s.peers[p].asking
              && target in c.peers && target != p && target !in s.peers[p].blackList
              && c.hash(Id(row + 1, target)) !in s.peers[p].vmap
              && target in dests && dests <= c.peers && p !in dests
              && (|c.peers| - 1) / 3 + 1 <= |dests| <= (|c.peers| - 1) / 3 + 2
              && s'.peers == s.peers && s'.created == s.created && s.net <= s'.net
              && (forall d :: d in dests ==> Query(d, c.hash(Id(row + 1, target)), p) in s'.net)
              && (forall m :: m in s'.net && m !in s.net ==> exists d :: d in dests && m == Query(d, c.hash(Id(row + 1, target)), p))
  {
    hide Id, Broadcast;
    var key := c.hash(Id(row + 1, target));
    assert key == VertexKey(c, row + 1, target);
    hide VertexKey;
    var queries := Queries(p, key, dests);
    assert forall d :: d in dests ==> Query(d, key, p) in queries;
    assert forall m :: m in queries ==> exists d :: d in dests && m == Query(d, key, p);
    if s.net <= s'.net && (forall d :: d in dests ==> Query(d, key, p) in s'.net)
       && (forall m :: m in s'.net && m !in s.net ==> exists d :: d in dests && m == Query(d, key, p)) {
      assert s'.net == s.net + queries;
    }
  }

  /** The remaining steps. */
  lemma OtherLaws(c: Config, s: State, s': State, p: nat, m: Message)
    ensures NextStep(c, s, s', Lose(m)) <==> s' == s.(net := s.net - {m})
    ensures NextStep(c, s, s', Leave(p)) <==>
              p in s.peers && s.peers[p].status == Running && s.peers[p].round > s.peers[p].stop
              && s' == s.(peers := s.peers[p := s.peers[p].(status := Exited)])
    ensures NextStep(c, s, s', Step.Crash(p)) <==>
              p in s.peers && s.peers[p].status == Running && s' == s.(peers := s.peers[p := s.peers[p].(status := Crashed)])
  {
  }

  /** A running peer can take any message addressed to it, and hand over, at any time. */
  lemma AlwaysReceives(c: Config, s: State, p: nat, m: Message)
    ensures (exists s' :: NextStep(c, s, s', Deliver(p, m))) <==> p in s.peers && s.peers[p].status == Running && m in s.net && m.dest == p
    ensures (exists s' :: NextStep(c, s, s', HandOver(p))) <==> p in s.peers && s.peers[p].status == Running
  {
    hide AdmitAll, LookUp, HandOff;
    if p in s.peers && s.peers[p].status == Running {
      assert NextStep(c, s, s.(peers := s.peers[p := HandOff(s.peers[p])]), HandOver(p));
      if m in s.net && m.dest == p {
        assert NextStep(c, s, s.(peers := s.peers[p := Deliver1(c, s.peers[p], m)]), Deliver(p, m));
      }
    }
  }

  // ---- Waking up ----

  /** An answer to one of the requests. */
  ghost predicate IsAnswer(p: Peer, m: Message) {
    exists i :: 0 <= i < |p.requests| && m == Packet(p.requests[i].asker, [p.requests[i].vertex])
  }

  /** The packets of a repair that a buffered vertex set off are sent to the creator of that vertex. */
  ghost predicate RepairSent(p: Peer, n: nat, keys: set<Key>, order: seq<Key>, net: set<Message>)
    requires n < |p.buffer|
  {
    && ListsKeys(p.vmap, keys, order)
    && forall k :: 0 <= k < |Batches(Fetch(p.vmap, order))| ==> Packet(p.buffer[n].pid, Batches(Fetch(p.vmap, order))[k]) in net
  }

  /** One packet of such a repair. */
  ghost predicate IsRepair(c: Config, p: Peer, coins: seq<bool>, n: nat, repair: Repair, order: seq<Key>, k: nat, m: Message)
    requires AllIndexable(p.round, p.dag, p.buffer) && |coins| == |p.buffer|
  {
    && n < |p.buffer| && RepairOf(c, p, coins, n, repair) && ListsKeys(p.vmap, repair.keys, order)
    && k < |Batches(Fetch(p.vmap, order))| && m == Packet(p.buffer[n].pid, Batches(Fetch(p.vmap, order))[k])
  }

  lemma WakeParts(c: Config, s: State, s': State, p: nat, coins: seq<bool>, orders: seq<seq<Key>>)
    requires NextStep(c, s, s', Wake(p, coins, orders))
    ensures Runs(s, p) && AllIndexable(s.peers[p].round, s.peers[p].dag, s.peers[p].buffer) && |coins| == |s.peers[p].buffer|
    ensures ListsRepairs(s.peers[p].vmap, ScanBuffer(c, s.peers[p], coins).repairs, orders)
    ensures s' == State(s.peers[p := WakeUp(c, s.peers[p], coins)],
                        s.net + Answers(s.peers[p].requests)
                          + RepairPackets(s.peers[p].vmap, ScanBuffer(c, s.peers[p], coins).repairs, orders), s.created)
  {
    hide ScanBuffer, WakeUp, AllIndexable, ListsRepairs, RepairPackets, Answers;
  }

  /** What a wake-up does to the peer: all requests are done with; the DAG, the buffer and the leftover set change by the scan. */
  lemma WakeLaw(c: Config, s: State, s': State, p: nat, coins: seq<bool>, orders: seq<seq<Key>>)
    requires NextStep(c, s, s', Wake(p, coins, orders))
    ensures p in s.peers && p in s'.peers && s'.peers == s.peers[p := s'.peers[p]] && s'.created == s.created && s.net <= s'.net
    ensures var me, me' := s.peers[p], s'.peers[p];
            me' == me.(requests := [], dag := me'.dag, buffer := me'.buffer, leftover := me'.leftover)
  {
    hide ScanBuffer, AllIndexable, ListsRepairs, RepairPackets, Answers;
    WakeParts(c, s, s', p, coins, orders);
  }

  /** Everyone whose request is there is answered. */
  lemma RequestsAreAnswered(c: Config, s: State, s': State, p: nat, coins: seq<bool>, orders: seq<seq<Key>>)
    requires NextStep(c, s, s', Wake(p, coins, orders))
    ensures forall m :: IsAnswer(s.peers[p], m) ==> m in s'.net
  {
    hide ScanBuffer, AllIndexable, ListsRepairs, RepairPackets, WakeUp;
    WakeParts(c, s, s', p, coins, orders);
    forall m | IsAnswer(s.peers[p], m) ensures m in Answers(s.peers[p].requests) {
    }
  }

  /** Every repair a vertex sets off is sent, whole, to the creator of that vertex. */
  lemma RepairsAreSent(c: Config, s: State, s': State, p: nat, coins: seq<bool>, orders: seq<seq<Key>>, n: nat, repair: Repair)
    requires NextStep(c, s, s', Wake(p, coins, orders)) && n < |s.peers[p].buffer|
    ensures AllIndexable(s.peers[p].round, s.peers[p].dag, s.peers[p].buffer) && |coins| == |s.peers[p].buffer|
    ensures RepairOf(c, s.peers[p], coins, n, repair) ==> exists order :: RepairSent(s.peers[p], n, repair.keys, order, s'.net)
  {
    hide ScanBuffer, AllIndexable, Answers, WakeUp, Batches;
    WakeParts(c, s, s', p, coins, orders);
    var me := s.peers[p];
    var repairs := ScanBuffer(c, me, coins).repairs;
    if RepairOf(c, me, coins, n, repair) {
      RepairTo(c, me, coins, n, repair);
      hide RepairOf;
      RepairsExactly(c, me, coins, repair);
      var j :| 0 <= j < |repairs| && repairs[j] == repair;
      var order := orders[j];
      assert ListsKeys(me.vmap, repairs[j].keys, orders[j]);
      forall k | 0 <= k < |Batches(Fetch(me.vmap, order))| ensures Packet(me.buffer[n].pid, Batches(Fetch(me.vmap, order))[k]) in s'.net {
        assert Packet(repairs[j].dest, Batches(Fetch(me.vmap, orders[j]))[k]) in RepairPackets(me.vmap, repairs, orders);
      }
      assert RepairSent(me, n, repair.keys, order, s'.net);
    }
  }

  lemma RepairTo(c: Config, p: Peer, coins: seq<bool>, n: nat, repair: Repair)
    requires AllIndexable(p.round, p.dag, p.buffer) && |coins| == |p.buffer| && n < |p.buffer| && RepairOf(c, p, coins, n, repair)
    ensures repair.dest == p.buffer[n].pid
  {
    hide PassBefore, Acceptable;
  }

  /** And nothing else is sent: every new packet answers a request or belongs to such a repair. */
  lemma NothingElseIsSent(c: Config, s: State, s': State, p: nat, coins: seq<bool>, orders: seq<seq<Key>>, m: Message)
    requires NextStep(c, s, s', Wake(p, coins, orders)) && m in s'.net && m !in s.net
    ensures AllIndexable(s.peers[p].round, s.peers[p].dag, s.peers[p].buffer) && |coins| == |s.peers[p].buffer|
    ensures IsAnswer(s.peers[p], m) || exists n, repair, order, k :: IsRepair(c, s.peers[p], coins, n, repair, order, k, m)
  {
    hide ScanBuffer, AllIndexable, WakeUp, Batches, RepairOf;
    WakeParts(c, s, s', p, coins, orders);
    var me := s.peers[p];
    var repairs := ScanBuffer(c, me, coins).repairs;
    if m in RepairPackets(me.vmap, repairs, orders) {
      var j, k :| 0 <= j < |repairs| && 0 <= k < |Batches(Fetch(me.vmap, orders[j]))|
                  && m == Packet(repairs[j].dest, Batches(Fetch(me.vmap, orders[j]))[k]);
      RepairsExactly(c, me, coins, repairs[j]);
      var n :| 0 <= n < |me.buffer| && RepairOf(c, me, coins, n, repairs[j]);
      RepairTo(c, me, coins, n, repairs[j]);
      assert IsRepair(c, me, coins, n, repairs[j], orders[j], k, m);
    }
  }

  /** The way of a repair, end to end: the creator of the vertex is sent packets that fit its buffer and, with clean headers,
      bring it each vertex that its own does not reference exactly once. */
  lemma RepairReaches(c: Config, s: State, s': State, p: nat, coins: seq<bool>, orders: seq<seq<Key>>, n: nat, repair: Repair)
    requires Deployment(c) && Practical(c) && Reachable(c, s) && NextStep(c, s, s', Wake(p, coins, orders)) && n < |s.peers[p].buffer|
    ensures AllIndexable(s.peers[p].round, s.peers[p].dag, s.peers[p].buffer) && |coins| == |s.peers[p].buffer|
    ensures RepairOf(c, s.peers[p], coins, n, repair) ==>
              exists order :: RepairSent(s.peers[p], n, repair.keys, order, s'.net) && RepairDelivers(c, s.peers[p].vmap, repair.keys, order)
  {
    hide Deployment, Practical, Reachable, NextStep, ScanBuffer, AllIndexable, RepairDelivers, RepairOf, RepairSent;
    RunningPeer(c, s, s', p, coins, orders);
    RepairsAreSent(c, s, s', p, coins, orders, n, repair);
    if RepairOf(c, s.peers[p], coins, n, repair) {
      var order :| RepairSent(s.peers[p], n, repair.keys, order, s'.net);
      SentLists(s.peers[p], n, repair.keys, order, s'.net);
      RepairsExactly(c, s.peers[p], coins, repair);
      ExactRepair(c, s, p, coins, repair, order);
    }
  }

  lemma SentLists(p: Peer, n: nat, keys: set<Key>, order: seq<Key>, net: set<Message>)
    requires n < |p.buffer| && RepairSent(p, n, keys, order, net)
    ensures Distinct(order) && Elements(order) == keys
  {
    hide Batches;
  }

  lemma RunningPeer(c: Config, s: State, s': State, p: nat, coins: seq<bool>, orders: seq<seq<Key>>)
    requires NextStep(c, s, s', Wake(p, coins, orders))
    ensures p in s.peers
  {
  }

  lemma {:induction false} AnyOrders(vmap: map<Key, Vertex>, repairs: seq<Repair>) returns (orders: seq<seq<Key>>)
    requires forall j :: 0 <= j < |repairs| ==> repairs[j].keys <= vmap.Keys
    ensures ListsRepairs(vmap, repairs, orders)
  {
    orders := [];
    if repairs != [] {
      var last := |repairs| - 1;
      var front := AnyOrders(vmap, repairs[..last]);
      var order := C.Listing(repairs[last].keys);
      assert forall i :: 0 <= i < |order| ==> order[i] in Elements(order);
      orders := front + [order];
      forall j | 0 <= j < |orders| ensures ListsKeys(vmap, repairs[j].keys, orders[j]) {
        if j < last { assert ListsKeys(vmap, repairs[..last][j].keys, front[j]); }
      }
    }
  }

  /** In a run a wake-up never fails: no row is missing and every key to be sent is found, whatever the draws. */
  lemma AlwaysWakes(c: Config, s: State, p: nat, coins: seq<bool>)
    requires Deployment(c) && Reachable(c, s) && p in s.peers && s.peers[p].status == Running && |coins| == |s.peers[p].buffer|
    ensures exists orders, s' :: NextStep(c, s, s', Wake(p, coins, orders))
  {
    hide Deployment, Reachable, Inv, PeerOk, LedgerOk, ScanBuffer, WakeUp, AllIndexable, Answers, RepairPackets, ListsRepairs;
    ReachableInv(c, s);
    InvLedger(c, s);
    InvPeer(c, s, p);
    var me := s.peers[p];
    BufferIndexable(c, s.created, p, me);
    WakeUpKeeps(c, s.created, p, me, coins);
    var repairs := ScanBuffer(c, me, coins).repairs;
    var orders := AnyOrders(me.vmap, repairs);
    var s' := State(s.peers[p := WakeUp(c, me, coins)], s.net + Answers(me.requests) + RepairPackets(me.vmap, repairs, orders), s.created);
    assert NextStep(c, s, s', Wake(p, coins, orders));
  }

  // ---- Request and answer, over a run ----

  /** A run with its steps. */
  ghost predicate Steps(c: Config, tr: seq<State>, steps: seq<Step>) {
    |tr| == |steps| + 1 && Init(c, tr[0]) && forall i :: 0 <= i < |steps| ==> NextStep(c, tr[i], tr[i + 1], steps[i])
  }

  /** The step delivers a request for k from `asker` to p, who knows the vertex. */
  ghost predicate AsksFor(s: State, step: Step, p: nat, k: Key, asker: nat) {
    step == Deliver(p, Query(p, k, asker)) && p in s.peers && k in s.peers[p].vmap
  }

  predicate Queued(p: Peer, r: Request) {
    r in p.tempRequests || r in p.requests
  }

  /** What a step does to a queued request: it stays, or it is answered in this step. A handoff puts it before the scanner,
      where it stays until a wake-up answers it. */
  lemma QueuedStep(c: Config, s: State, s': State, step: Step, p: nat, r: Request)
    requires NextStep(c, s, s', step) && p in s.peers && Queued(s.peers[p], r)
    ensures p in s'.peers
    ensures Queued(s'.peers[p], r) || Packet(r.asker, [r.vertex]) in s'.net
    ensures r in s.peers[p].requests || step == HandOver(p) ==> r in s'.peers[p].requests || Packet(r.asker, [r.vertex]) in s'.net
    ensures r in s.peers[p].requests && step.Wake? && step.p == p ==> Packet(r.asker, [r.vertex]) in s'.net
  {
    hide AdvanceRound, KeyOf, AdmitAll, TimeOut, ScanBuffer, AllIndexable, ListsRepairs, RepairPackets, CanAdvance, Shape, ListsPreviousRow;
    match step {
      case Advance(q, refs) => AdvanceKeepsRequests(c, q, s.peers[q], refs);
      case Wait(q) => TimeOutKeepsRequests(c, s.peers[q]);
      case Deliver(q, m) => if m.Packet? { AdmitAllKeepsRequests(c, s.peers[q], m.vertices); }
      case HandOver(q) =>
      case Wake(q, coins, orders) =>
        if q == p {
          RequestsAreAnswered(c, s, s', p, coins, orders);
          if r in s.peers[p].requests {
            var i :| 0 <= i < |s.peers[p].requests| && s.peers[p].requests[i] == r;
            assert IsAnswer(s.peers[p], Packet(r.asker, [r.vertex]));
          }
        }
      case _ =>
    }
  }

  lemma AdvanceKeepsRequests(c: Config, me: nat, p: Peer, refs: seq<Key>)
    requires Shape(c, p) && CanAdvance(c, p) && (p.round < c.lastRound ==> ListsPreviousRow(c, p, refs))
    ensures var p' := AdvanceRound(c, me, p, refs); p'.tempRequests == p.tempRequests && p'.requests == p.requests
  {
    hide WaveWork, KeyOf, NewPayload;
  }

  lemma TimeOutKeepsRequests(c: Config, p: Peer)
    requires Shape(c, p) && !CanAdvance(c, p) && p.round <= c.lastRound
    ensures TimeOut(c, p).tempRequests == p.tempRequests && TimeOut(c, p).requests == p.requests
  {
  }

  lemma AdmitAllKeepsRequests(c: Config, p: Peer, vs: seq<Vertex>)
    ensures AdmitAll(c, p, vs).tempRequests == p.tempRequests && AdmitAll(c, p, vs).requests == p.requests
  {
    var more := A.DeliveriesPrepend(c, p, vs);
  }

  /** From a request before the scanner to its answer. */
  lemma {:induction false} AnsweredBy(c: Config, tr: seq<State>, steps: seq<Step>, j: nat, l: nat, p: nat, r: Request)
    requires Steps(c, tr, steps) && j <= l < |steps| && p in tr[j].peers && r in tr[j].peers[p].requests && steps[l].Wake? && steps[l].p == p
    ensures exists t :: j < t <= l + 1 && Packet(r.asker, [r.vertex]) in tr[t].net
    decreases l - j
  {
    hide NextStep, Init;
    QueuedStep(c, tr[j], tr[j + 1], steps[j], p, r);
    if Packet(r.asker, [r.vertex]) !in tr[j + 1].net { AnsweredBy(c, tr, steps, j + 1, l, p, r); }
  }

  lemma {:induction false} AnsweredAfterHandOver(c: Config, tr: seq<State>, steps: seq<Step>, i: nat, j: nat, l: nat, p: nat, r: Request)
    requires Steps(c, tr, steps) && i <= j < l < |steps| && p in tr[i].peers && Queued(tr[i].peers[p], r)
    requires steps[j] == HandOver(p) && steps[l].Wake? && steps[l].p == p
    ensures exists t :: i < t <= l + 1 && Packet(r.asker, [r.vertex]) in tr[t].net
    decreases j - i
  {
    hide NextStep, Init;
    QueuedStep(c, tr[i], tr[i + 1], steps[i], p, r);
    if Packet(r.asker, [r.vertex]) !in tr[i + 1].net {
      if i == j { AnsweredBy(c, tr, steps, j + 1, l, p, r); } else { AnsweredAfterHandOver(c, tr, steps, i + 1, j, l, p, r); }
    }
  }

  /** The recovery path: a peer that gets a request for a vertex it knows has sent that vertex to the asker by its next wake-up
      after a handoff, whatever happens in between. */
  lemma RequestAnswered(c: Config, tr: seq<State>, steps: seq<Step>, i: nat, j: nat, l: nat, p: nat, k: Key, asker: nat)
    requires Steps(c, tr, steps) && i < j < l < |steps| && AsksFor(tr[i], steps[i], p, k, asker)
    requires steps[j] == HandOver(p) && steps[l].Wake? && steps[l].p == p
    ensures exists t :: i < t <= l + 1 && Packet(asker, [tr[i].peers[p].vmap[k]]) in tr[t].net
  {
    var r := Request(asker, tr[i].peers[p].vmap[k]);
    QueryLaw(c, tr[i], tr[i + 1], p, k, asker);
    hide NextStep, Init;
    assert Queued(tr[i + 1].peers[p], r);
    AnsweredAfterHandOver(c, tr, steps, i + 1, j, l, p, r);
  }

  /** A queued request has been made. */
  ghost predicate WasAsked(tr: seq<State>, steps: seq<Step>, n: nat, p: nat, r: Request) {
    exists i, k :: 0 <= i < n && i < |steps| && i < |tr| && AsksFor(tr[i], steps[i], p, k, r.asker) && tr[i].peers[p].vmap[k] == r.vertex
  }

  lemma NewlyQueued(c: Config, s: State, s': State, step: Step, p: nat, r: Request) returns (k: Key)
    requires NextStep(c, s, s', step) && p in s.peers && p in s'.peers && Queued(s'.peers[p], r) && !Queued(s.peers[p], r)
    ensures AsksFor(s, step, p, k, r.asker) && s.peers[p].vmap[k] == r.vertex
  {
    hide AdvanceRound, KeyOf, AdmitAll, TimeOut, ScanBuffer, AllIndexable, ListsRepairs, RepairPackets, CanAdvance, Shape, ListsPreviousRow;
    k := [];
    match step {
      case Advance(q, refs) => AdvanceKeepsRequests(c, q, s.peers[q], refs);
      case Wait(q) => TimeOutKeepsRequests(c, s.peers[q]);
      case Deliver(q, m) => if m.Packet? { AdmitAllKeepsRequests(c, s.peers[q], m.vertices); } else { k := m.key; }
      case HandOver(q) =>
      case _ =>
    }
  }

  lemma StepPeers(c: Config, s: State, s': State, step: Step)
    requires NextStep(c, s, s', step)
    ensures s'.peers.Keys == s.peers.Keys
  {
    hide AdvanceRound, KeyOf, AdmitAll, TimeOut, ScanBuffer, AllIndexable, ListsRepairs, RepairPackets, CanAdvance, Shape, ListsPreviousRow,
      WakeUp, Answers, Broadcast, NewVertex;
  }

  lemma {:induction false} QueuedWasAsked(c: Config, tr: seq<State>, steps: seq<Step>, n: nat, p: nat, r: Request)
    requires Steps(c, tr, steps) && n < |tr| && p in tr[n].peers && Queued(tr[n].peers[p], r)
    ensures WasAsked(tr, steps, n, p, r)
  {
    hide NextStep, Queued;
    if n == 0 {
      NothingQueued(c, r);
    } else {
      StepPeers(c, tr[n - 1], tr[n - 1 + 1], steps[n - 1]);
      if Queued(tr[n - 1].peers[p], r) {
        QueuedWasAsked(c, tr, steps, n - 1, p, r);
      } else {
        var k := NewlyQueued(c, tr[n - 1], tr[n - 1 + 1], steps[n - 1], p, r);
      }
    }
  }

  lemma NothingQueued(c: Config, r: Request)
    ensures !Queued(InitialPeer(c), r)
  {
  }

  /** Every packet a wake-up sends was asked for, by a request delivered before, or belongs to a repair. */
  lemma AnswersWereAsked(c: Config, tr: seq<State>, steps: seq<Step>, n: nat, p: nat, coins: seq<bool>, orders: seq<seq<Key>>, m: Message)
    requires Steps(c, tr, steps) && n < |steps| && steps[n] == Wake(p, coins, orders) && m in tr[n + 1].net && m !in tr[n].net
    ensures p in tr[n].peers
    ensures AllIndexable(tr[n].peers[p].round, tr[n].peers[p].dag, tr[n].peers[p].buffer) && |coins| == |tr[n].peers[p].buffer|
    ensures || (exists r :: WasAsked(tr, steps, n, p, r) && m == Packet(r.asker, [r.vertex]))
            || (exists i, repair, order, k :: IsRepair(c, tr[n].peers[p], coins, i, repair, order, k, m))
  {
    hide Init, IsRepair, WasAsked, AllIndexable;
    RunningPeer(c, tr[n], tr[n + 1], p, coins, orders);
    NothingElseIsSent(c, tr[n], tr[n + 1], p, coins, orders, m);
    hide NextStep;
    var me := tr[n].peers[p];
    if IsAnswer(me, m) {
      var i :| 0 <= i < |me.requests| && m == Packet(me.requests[i].asker, [me.requests[i].vertex]);
      assert Queued(me, me.requests[i]);
      QueuedWasAsked(c, tr, steps, n, p, me.requests[i]);
    }
  }
}
