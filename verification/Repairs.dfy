/** The protocol's messages as bytes: every packet of a run fits the receiver's buffer and arrives as the vertices that
    were sent, and a repair carries exactly the vertices the accepted one does not reference. */
module Repairs {
  import opened ByteStrings
  import opened FiniteSets
  import opened Vertices
  import opened Framing
  import opened Batching
  import opened Protocol
  import opened Invariants
  import opened System
  import opened Theorems

  /** What fits the C++ types and buffers: at most 398 peers with 64-bit ids, 32-bit rounds, and a hash whose output
      is 64 characters without '#'. */
  ghost predicate Sized(c: Config) {
    && Crowd(c) <= MAX_CROWD && c.lastRound < 0x8000_0000
    && (forall q :: q in c.peers ==> q < TWO_64)
    && forall r: nat, q: nat :: 1 <= r <= c.lastRound && q in c.peers ==> Digest64(VertexKey(c, r, q))
  }

  /** And ids whose packets arrive intact or not at all (see Forgery). */
  ghost predicate Practical(c: Config) {
    Sized(c) && forall q :: q in c.peers ==> !Tricky(q)
  }

  predicate Digest64(k: Key) {
    |k| == HEX_HASH && Inert(k)
  }

  /** A created vertex is protocol-built and leaves room in a stream buffer for a packet that is not yet full. */
  predicate Fits(v: Vertex) {
    Plain(v) && EncodedSize(v) <= MAX_STREAM_SIZE - PACKET_LIMIT
  }

  lemma EntryFits(c: Config, created: Ledger, k: Key)
    requires Practical(c) && LedgerOk(c, created) && k in created
    ensures Fits(created[k])
  {
    var v := created[k];
    assert EntryOk(c, created, k);
    EntryRefs(c, created, k);
    hide VertexKey, LedgerOk, NewPayload;
    NewVertexFits(v);
  }

  lemma EntryRefs(c: Config, created: Ledger, k: Key)
    requires Sized(c) && LedgerOk(c, created) && k in created
    ensures |created[k].refs| <= MAX_CROWD
    ensures forall i :: 0 <= i < |created[k].refs| ==> Digest64(created[k].refs[i])
  {
    hide VertexKey, NewPayload;
    var v := created[k];
    assert EntryOk(c, created, k);
    if v.round > 1 {
      DistinctSize(v.refs);
      RoundBound(c, created, Elements(v.refs), v.round - 1);
      forall i | 0 <= i < |v.refs| ensures Digest64(v.refs[i]) {
        assert v.refs[i] in v.refs && EntryOk(c, created, v.refs[i]);
      }
    }
  }

  // ---- Every packet of a run ----

  /** The packet can be built, is shorter than the receiver's buffer, and arrives intact or not at all: its bytes are received
      as its vertices when its headers contain no accidental delimiter, and otherwise not received. */
  ghost predicate Faithful(vertices: seq<Vertex>)
    ensures Faithful(vertices) ==> vertices != [] && AllRepresentable(vertices) && StreamSize(vertices) < TWO_32
  {
    && Deliverable(vertices)
    && |Batching.Packet(vertices)| < MAX_STREAM_SIZE
    && Receive(Batching.Packet(vertices)) == if CleanPacket(vertices) then Some(vertices) else None
  }

  ghost predicate NetFaithful(net: set<Message>) {
    forall m :: m in net && m.Packet? ==> Faithful(m.vertices)
  }

  lemma SingleFaithful(v: Vertex)
    requires Fits(v)
    ensures Faithful([v])
  {
    hide Built, EncodedSize, Receive, CleanPacket, Batching.Packet, Tricky, NewPayload;
    assert [v][..0] == [] && [v][0] == v;
    assert StreamSize([v]) == EncodedSize(v);
    PlainPacket([v]);
    PacketStream([v]);
  }

  lemma BatchFaithful(order: seq<Vertex>, k: nat)
    requires forall i :: 0 <= i < |order| ==> Fits(order[i])
    requires k < |Batches(order)|
    ensures Faithful(Batches(order)[k])
  {
    hide Batches, Receive, CleanPacket, Batching.Packet, EncodedSize, Plain, Deliverable;
    ExactDelivery(order);
  }

  lemma FetchFits(c: Config, created: Ledger, vmap: map<Key, Vertex>, order: seq<Key>)
    requires Practical(c) && LedgerOk(c, created) && Storage(created, vmap)
    requires forall i :: 0 <= i < |order| ==> order[i] in vmap
    ensures forall i :: 0 <= i < |order| ==> Fits(Fetch(vmap, order)[i])
  {
    hide LedgerOk, Practical, Fits;
    forall i | 0 <= i < |order| ensures Fits(Fetch(vmap, order)[i]) { EntryFits(c, created, order[i]); }
  }

  lemma RepairPacketsFaithful(c: Config, created: Ledger, vmap: map<Key, Vertex>, repairs: seq<Repair>, orders: seq<seq<Key>>)
    requires Practical(c) && LedgerOk(c, created) && Storage(created, vmap) && ListsRepairs(vmap, repairs, orders)
    ensures NetFaithful(RepairPackets(vmap, repairs, orders))
  {
    hide LedgerOk, Practical, Fits, Faithful, Batches;
    forall m | m in RepairPackets(vmap, repairs, orders) ensures Faithful(m.vertices) {
      var j, k :| 0 <= j < |repairs| && 0 <= k < |Batches(Fetch(vmap, orders[j]))|
                  && m == Message.Packet(repairs[j].dest, Batches(Fetch(vmap, orders[j]))[k]);
      FetchFits(c, created, vmap, orders[j]);
      BatchFaithful(Fetch(vmap, orders[j]), k);
    }
  }

  lemma GenuineFaithful(c: Config, created: Ledger, v: Vertex)
    requires Practical(c) && LedgerOk(c, created) && Genuine(c, created, v)
    ensures Faithful([v])
  {
    hide LedgerOk, Practical, Fits, Faithful;
    EntryFits(c, created, KeyOf(c, v));
    SingleFaithful(v);
  }

  lemma AnswersFaithful(c: Config, created: Ledger, requests: seq<Request>)
    requires Practical(c) && LedgerOk(c, created) && RequestsGenuine(c, created, requests)
    ensures NetFaithful(Answers(requests))
  {
    hide LedgerOk, Practical, Faithful, Genuine;
    forall m | m in Answers(requests) ensures Faithful(m.vertices) {
      var i :| 0 <= i < |requests| && m == Message.Packet(requests[i].asker, [requests[i].vertex]);
      GenuineFaithful(c, created, requests[i].vertex);
    }
  }

  lemma StepFaithful(c: Config, s: State, s': State, step: Step)
    requires Practical(c) && Inv(c, s) && Inv(c, s') && NetFaithful(s.net) && NextStep(c, s, s', step)
    ensures NetFaithful(s'.net)
  {
    hide Practical, Inv, Faithful, PeerOk, LedgerOk, KeyOf, ScanBuffer, RepairPackets, Answers, AllIndexable, ListsRepairs, CanAdvance,
      ListsPreviousRow, AdvanceRound, TimeOut, AdmitAll, Shape;
    InvLedger(c, s);
    InvLedger(c, s');
    match step {
      case Advance(p, refs) =>
        var v := NewVertex(s'.peers[p].round, p, refs);
        if s.peers[p].round < c.lastRound { GenuineFaithful(c, s'.created, v); }
      case Wake(p, coins, orders) =>
        PeerView(c, s, p);
        PeerRequests(c, s, p);
        AnswersFaithful(c, s.created, s.peers[p].requests);
        RepairPacketsFaithful(c, s.created, s.peers[p].vmap, ScanBuffer(c, s.peers[p], coins).repairs, orders);
      case _ =>
    }
  }

  lemma PeerRequests(c: Config, s: State, p: nat)
    requires Inv(c, s) && p in s.peers
    ensures RequestsGenuine(c, s.created, s.peers[p].requests)
  {
    hide Places, DagOk;
  }

  /** Every packet of every run, however it came about, is delivered as bytes exactly as the protocol takes it to be. */
  lemma {:induction false} EveryPacketArrives(c: Config, tr: seq<State>, n: nat)
    requires Deployment(c) && Practical(c) && Run(c, tr) && n < |tr|
    ensures NetFaithful(tr[n].net)
  {
    hide Deployment, Practical, NextStep, Inv, Faithful;
    if n > 0 {
      EveryPacketArrives(c, tr, n - 1);
      InvAlways(c, tr, n - 1);
      InvAlways(c, tr, n);
      assert Next(c, tr[n - 1], tr[n - 1 + 1]);
      var step :| NextStep(c, tr[n - 1], tr[n], step);
      StepFaithful(c, tr[n - 1], tr[n], step);
    }
  }

  lemma ReachablePackets(c: Config, s: State)
    requires Deployment(c) && Practical(c) && Reachable(c, s)
    ensures NetFaithful(s.net)
  {
    hide Deployment, Practical, Next, Init, Faithful;
    var tr :| Run(c, tr) && tr[|tr| - 1] == s;
    EveryPacketArrives(c, tr, |tr| - 1);
  }

  // ---- Exact repair ----

  /** The pass over the buffer just before vertex n. */
  function PassBefore(c: Config, p: Peer, coins: seq<bool>, n: nat): (r: Pass)
    requires AllIndexable(p.round, p.dag, p.buffer) && |coins| == |p.buffer| && n <= |p.buffer|
    ensures |r.dag| == |p.dag|
  {
    ScanAll(c, p.round, Pass(p.dag, [], p.leftover, []), p.buffer[..n], coins[..n])
  }

  /** The repair that vertex n of the buffer sets off: it is accepted, and the previous row without its references goes to
      its creator. (For a vertex of round 1 it is whatever the variable still holds.) */
  predicate RepairOf(c: Config, p: Peer, coins: seq<bool>, n: nat, repair: Repair)
    requires AllIndexable(p.round, p.dag, p.buffer) && |coins| == |p.buffer| && n < |p.buffer|
  {
    var v, pass := p.buffer[n], PassBefore(c, p, coins, n);
    && Acceptable(p.round, pass.dag, v) && coins[n]
    && repair.dest == v.pid && repair.keys != {}
    && repair.keys == if v.round == 1 then pass.leftover else pass.dag[v.round - 2] - Elements(v.refs)
  }

  lemma {:induction false} ScanAllSnoc(c: Config, round: nat, p: Pass, todo: seq<Vertex>, v: Vertex, coins: seq<bool>, coin: bool)
    requires AllIndexable(round, p.dag, todo) && Indexable(round, p.dag, v) && |coins| == |todo|
    ensures AllIndexable(round, p.dag, todo + [v])
    ensures ScanAll(c, round, p, todo + [v], coins + [coin]) == ScanOne(c, round, ScanAll(c, round, p, todo, coins), v, coin)
    decreases |todo|
  {
    hide KeyOf;
    if todo != [] {
      hide ScanOne;
      ScanOneRows(c, round, p, todo[0], coins[0]);
      assert (todo + [v])[1..] == todo[1..] + [v] && (coins + [coin])[1..] == coins[1..] + [coin];
      ScanAllSnoc(c, round, ScanOne(c, round, p, todo[0], coins[0]), todo[1..], v, coins[1..], coin);
    }
  }

  lemma ScanOneRows(c: Config, round: nat, p: Pass, v: Vertex, coin: bool)
    requires Indexable(round, p.dag, v)
    ensures |ScanOne(c, round, p, v, coin).dag| == |p.dag|
  {
  }

  /** The vertex is accepted, its repair is not sent, and `left` is what is missing. */
  predicate Leaves(c: Config, p: Peer, coins: seq<bool>, m: nat, left: set<Key>)
    requires AllIndexable(p.round, p.dag, p.buffer) && |coins| == |p.buffer| && m < |p.buffer|
  {
    var v, pass := p.buffer[m], PassBefore(c, p, coins, m);
    v.round > 1 && Acceptable(p.round, pass.dag, v) && !coins[m] && left == pass.dag[v.round - 2] - Elements(v.refs)
  }

  /** From i to n no vertex is compared with its row and no repair of round 1 is sent. */
  predicate Untouched(p: Peer, coins: seq<bool>, i: nat, n: nat)
    requires |coins| == |p.buffer| && n <= |p.buffer|
  {
    forall j :: i <= j < n ==> p.round < p.buffer[j].round || (p.buffer[j].round == 1 && !coins[j])
  }

  lemma NextPass(c: Config, p: Peer, coins: seq<bool>, n: nat)
    requires AllIndexable(p.round, p.dag, p.buffer) && |coins| == |p.buffer| && n < |p.buffer|
    ensures PassBefore(c, p, coins, n + 1) == ScanOne(c, p.round, PassBefore(c, p, coins, n), p.buffer[n], coins[n])
  {
    hide ScanAll, ScanOne;
    assert p.buffer[..n + 1] == p.buffer[..n] + [p.buffer[n]] && coins[..n + 1] == coins[..n] + [coins[n]];
    ScanAllSnoc(c, p.round, Pass(p.dag, [], p.leftover, []), p.buffer[..n], p.buffer[n], coins[..n], coins[n]);
  }

  /** What one vertex does to the leftover set. */
  lemma LeftOverStep(c: Config, p: Peer, coins: seq<bool>, n: nat)
    requires AllIndexable(p.round, p.dag, p.buffer) && |coins| == |p.buffer| && n < |p.buffer|
    ensures var before, left := PassBefore(c, p, coins, n).leftover, PassBefore(c, p, coins, n + 1).leftover;
            && (Untouched(p, coins, n, n + 1) ==> left == before)
            && (forall gone :: Leaves(c, p, coins, n, gone) ==> left == gone)
            && (left != {} ==> if p.round < p.buffer[n].round || p.buffer[n].round == 1 then left == before else Leaves(c, p, coins, n, left))
  {
    NextPass(c, p, coins, n);
    hide PassBefore, KeyOf;
  }

  lemma {:induction false} LeftAlone(c: Config, p: Peer, coins: seq<bool>, i: nat, n: nat)
    requires AllIndexable(p.round, p.dag, p.buffer) && |coins| == |p.buffer| && i <= n <= |p.buffer| && Untouched(p, coins, i, n)
    ensures PassBefore(c, p, coins, n).leftover == PassBefore(c, p, coins, i).leftover
    decreases n
  {
    hide PassBefore;
    if i < n {
      LeftAlone(c, p, coins, i, n - 1);
      LeftOverStep(c, p, coins, n - 1);
    }
  }

  /** What is left over when the scan comes to vertex n: what the last vertex that was compared with its row left, if it was
      accepted and its repair not sent; what there was before the pass, if none was; else nothing. */
  lemma {:induction false} LeftOver(c: Config, p: Peer, coins: seq<bool>, n: nat)
    requires AllIndexable(p.round, p.dag, p.buffer) && |coins| == |p.buffer| && n <= |p.buffer|
    ensures Untouched(p, coins, 0, n) ==> PassBefore(c, p, coins, n).leftover == p.leftover
    ensures forall m, left :: 0 <= m < n && Leaves(c, p, coins, m, left) && Untouched(p, coins, m + 1, n)
              ==> PassBefore(c, p, coins, n).leftover == left
    ensures PassBefore(c, p, coins, n).leftover != {} ==> LeftBehind(c, p, coins, n, PassBefore(c, p, coins, n).leftover)
  {
    NoPass(c, p, coins);
    hide PassBefore, Leaves, Untouched;
    if Untouched(p, coins, 0, n) { LeftAlone(c, p, coins, 0, n); }
    forall m, left | 0 <= m < n && Leaves(c, p, coins, m, left) && Untouched(p, coins, m + 1, n)
      ensures PassBefore(c, p, coins, n).leftover == left
    {
      LeftOverStep(c, p, coins, m);
      LeftAlone(c, p, coins, m + 1, n);
    }
    var left := PassBefore(c, p, coins, n).leftover;
    if n > 0 && left != {} {
      LeftOver(c, p, coins, n - 1);
      LeftOverStep(c, p, coins, n - 1);
    }
  }

  lemma NoPass(c: Config, p: Peer, coins: seq<bool>)
    requires AllIndexable(p.round, p.dag, p.buffer) && |coins| == |p.buffer|
    ensures PassBefore(c, p, coins, 0).leftover == p.leftover
  {
    assert p.buffer[..0] == [];
  }

  /** The set was there before the pass, or the last vertex that was compared with its row has left it. */
  ghost predicate LeftBehind(c: Config, p: Peer, coins: seq<bool>, n: nat, left: set<Key>)
    requires AllIndexable(p.round, p.dag, p.buffer) && |coins| == |p.buffer| && n <= |p.buffer|
  {
    || (left == p.leftover && forall j :: 0 <= j < n ==> p.round < p.buffer[j].round || p.buffer[j].round == 1)
    || exists m :: 0 <= m < n && Leaves(c, p, coins, m, left)
                   && forall j :: m < j < n ==> p.round < p.buffer[j].round || p.buffer[j].round == 1
  }

  /** The repairs set off by the first n vertices. */
  lemma {:induction false} RepairsBefore(c: Config, p: Peer, coins: seq<bool>, n: nat, repair: Repair)
    requires AllIndexable(p.round, p.dag, p.buffer) && |coins| == |p.buffer| && n <= |p.buffer|
    ensures repair in PassBefore(c, p, coins, n).repairs <==> exists m :: 0 <= m < n && RepairOf(c, p, coins, m, repair)
  {
    if n > 0 {
      RepairsBefore(c, p, coins, n - 1, repair);
      NextPass(c, p, coins, n - 1);
      OneRepair(c, p, coins, n - 1, repair);
    }
  }

  lemma OneRepair(c: Config, p: Peer, coins: seq<bool>, n: nat, repair: Repair)
    requires AllIndexable(p.round, p.dag, p.buffer) && |coins| == |p.buffer| && n < |p.buffer|
    ensures repair in ScanOne(c, p.round, PassBefore(c, p, coins, n), p.buffer[n], coins[n]).repairs
       <==> repair in PassBefore(c, p, coins, n).repairs || RepairOf(c, p, coins, n, repair)
  {
    hide PassBefore, KeyOf;
  }

  /** A pass sends exactly the repairs its vertices set off. */
  lemma RepairsExactly(c: Config, p: Peer, coins: seq<bool>, repair: Repair)
    requires AllIndexable(p.round, p.dag, p.buffer) && |coins| == |p.buffer|
    ensures repair in ScanBuffer(c, p, coins).repairs
       <==> exists n :: 0 <= n < |p.buffer| && RepairOf(c, p, coins, n, repair)
  {
    hide RepairOf, ScanAll;
    RepairsBefore(c, p, coins, |p.buffer|, repair);
    assert p.buffer[..|p.buffer|] == p.buffer && coins[..|p.buffer|] == coins;
  }

  /** The records received from all the packets, in order. */
  function ReceiveAll(packets: seq<Bytes>): Option<seq<Vertex>> {
    if packets == [] then Some([]) else
      match (ReceiveAll(packets[..|packets| - 1]), Receive(packets[|packets| - 1]))
      case (Some(before), Some(last)) => Some(before + last)
      case _ => None
  }

  lemma {:induction false} ReceiveAllFaithful(batches: seq<seq<Vertex>>, packets: seq<Bytes>)
    requires |packets| == |batches|
    requires forall k :: 0 <= k < |batches| ==> Receive(packets[k]) == Some(batches[k])
    ensures ReceiveAll(packets) == Some(Flatten(batches))
  {
    if batches != [] {
      hide Receive;
      var n := |batches| - 1;
      ReceiveAllFaithful(batches[..n], packets[..n]);
    }
  }

  /** Exact repair: every repair of a pass is set off by an accepted vertex and goes to its creator with the previous row
      minus that vertex's references; every key of it is found in the map; its packets all fit the receiver's buffer; and
      when their headers are clean the creator receives each of the missing vertices exactly once. */
  lemma ExactRepair(c: Config, s: State, p: nat, coins: seq<bool>, repair: Repair, order: seq<Key>)
    requires Deployment(c) && Practical(c) && Reachable(c, s) && p in s.peers && |coins| == |s.peers[p].buffer|
    ensures var me := s.peers[p];
            && AllIndexable(me.round, me.dag, me.buffer)
            && (repair in ScanBuffer(c, me, coins).repairs ==>
                  && (exists n :: 0 <= n < |me.buffer| && RepairOf(c, me, coins, n, repair))
                  && repair.keys <= me.vmap.Keys
                  && (Distinct(order) && Elements(order) == repair.keys ==> RepairDelivers(c, me.vmap, repair.keys, order)))
  {
    hide Deployment, Practical, Reachable, Inv, KeyOf, PeerOk, LedgerOk, ScanBuffer, RepairDelivers, RepairOf;
    ReachableInv(c, s);
    InvLedger(c, s);
    InvPeer(c, s, p);
    var me := s.peers[p];
    BufferIndexable(c, s.created, p, me);
    RepairsExactly(c, me, coins, repair);
    WakeUpKeeps(c, s.created, p, me, coins);
    PeerView(c, s, p);
    if repair in ScanBuffer(c, me, coins).repairs && Distinct(order) && Elements(order) == repair.keys {
      DeliversRepair(c, s.created, me.vmap, repair.keys, order);
    }
  }

  lemma InvPeer(c: Config, s: State, p: nat)
    requires Inv(c, s) && p in s.peers
    ensures PeerOk(c, s.created, p, s.peers[p])
  {
    hide PeerOk;
  }

  ghost predicate AllFaithful(batches: seq<seq<Vertex>>)
    ensures AllFaithful(batches) ==>
              forall k :: 0 <= k < |batches| ==> batches[k] != [] && AllRepresentable(batches[k]) && StreamSize(batches[k]) < TWO_32
  {
    forall k :: 0 <= k < |batches| ==> Faithful(batches[k])
  }

  ghost predicate AllCleanPackets(batches: seq<seq<Vertex>>)
    requires AllFaithful(batches)
  {
    forall k :: 0 <= k < |batches| ==> CleanPacket(batches[k])
  }

  /** Taken out of the map in this order and packed, the missing vertices arrive, once each. */
  ghost predicate RepairDelivers(c: Config, vmap: map<Key, Vertex>, missing: set<Key>, order: seq<Key>) {
    && (forall i :: 0 <= i < |order| ==> order[i] in vmap)
    && var batches := Batches(Fetch(vmap, order));
    && KeyBag(c, Flatten(batches)) == multiset(missing)
    && AllFaithful(batches)
    && (AllCleanPackets(batches) ==> ReceiveAll(Packets(batches)) == Some(Fetch(vmap, order)))
  }

  lemma DeliversBatches(batches: seq<seq<Vertex>>)
    requires AllFaithful(batches) && AllCleanPackets(batches)
    ensures ReceiveAll(Packets(batches)) == Some(Flatten(batches))
  {
    hide Receive, CleanPacket, Batching.Packet, ReceiveAll, Flatten;
    forall k | 0 <= k < |batches| ensures Receive(Packets(batches)[k]) == Some(batches[k]) {
      assert Faithful(batches[k]) && CleanPacket(batches[k]);
    }
    ReceiveAllFaithful(batches, Packets(batches));
  }

  lemma DeliversRepair(c: Config, created: Ledger, vmap: map<Key, Vertex>, missing: set<Key>, order: seq<Key>)
    requires Practical(c) && LedgerOk(c, created) && Storage(created, vmap)
    requires missing <= vmap.Keys && Distinct(order) && Elements(order) == missing
    ensures RepairDelivers(c, vmap, missing, order)
  {
    hide Practical, LedgerOk, Storage, Fits, CleanPacket, Receive, Batching.Packet, KeyBag, KeyOf, Distinct, Batches, Faithful, Flatten,
      ReceiveAll;
    assert forall i :: 0 <= i < |order| ==> order[i] in Elements(order);
    var vs := Fetch(vmap, order);
    var batches := Batches(vs);
    FetchFits(c, created, vmap, order);
    BatchesKeep(vs);
    FetchBag(c, created, vmap, order);
    DistinctBag(order);
    hide Fetch, Elements;
    forall k | 0 <= k < |batches| ensures Faithful(batches[k]) { BatchFaithful(vs, k); }
    assert AllFaithful(batches);
    hide AllCleanPackets;
    if AllCleanPackets(batches) { DeliversBatches(batches); }
  }

  lemma FetchCons(vmap: map<Key, Vertex>, order: seq<Key>)
    requires order != [] && forall i :: 0 <= i < |order| ==> order[i] in vmap
    ensures Fetch(vmap, order) == [vmap[order[0]]] + Fetch(vmap, order[1..])
  {
  }

  lemma StoredKey(c: Config, created: Ledger, vmap: map<Key, Vertex>, k: Key)
    requires LedgerOk(c, created) && Storage(created, vmap) && k in vmap
    ensures KeyOf(c, vmap[k]) == k
  {
    hide VertexKey, NewPayload;
    assert EntryOk(c, created, k);
  }

  lemma {:induction false} FetchBag(c: Config, created: Ledger, vmap: map<Key, Vertex>, order: seq<Key>)
    requires LedgerOk(c, created) && Storage(created, vmap)
    requires forall i :: 0 <= i < |order| ==> order[i] in vmap
    ensures KeyBag(c, Fetch(vmap, order)) == multiset(order)
  {
    hide LedgerOk, Storage, KeyBag, KeyOf;
    if order == [] {
      KeyBagEmpty(c);
      assert Fetch(vmap, order) == [];
    } else {
      FetchBag(c, created, vmap, order[1..]);
      FetchCons(vmap, order);
      StoredKey(c, created, vmap, order[0]);
      hide Fetch;
      KeyBagCons(c, vmap[order[0]], Fetch(vmap, order[1..]));
      assert order == [order[0]] + order[1..];
    }
  }

  lemma {:induction false} DistinctBag(order: seq<Key>)
    requires Distinct(order)
    ensures multiset(order) == multiset(Elements(order))
  {
    if order != [] {
      DistinctBag(order[1..]);
      assert order == [order[0]] + order[1..];
      assert Elements(order) == {order[0]} + Elements(order[1..]);
      assert order[0] !in Elements(order[1..]);
    }
  }
}
