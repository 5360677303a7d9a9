/** What each step does, spelled out: which steps are possible, what they change, what they send and to whom. */
module Effects {
  import opened ByteStrings
  import opened FiniteSets
  import opened Identity
  import opened Vertices
  import opened Batching
  import opened Protocol
  import opened Invariants
  import opened System
  import opened Theorems
  import opened Repairs
  import W = Waves
  import C = Completion

  /** Row i lacks the vertex of q. */
  ghost predicate Lacks(c: Config, dag: seq<set<Key>>, i: int, q: nat) {
    0 <= i < |dag| && q in c.peers && c.hash(Id(i + 1, q)) !in dag[i]
  }

  /** 2f + 1 vertices in the current row, or no row yet. */
  predicate MayAdvance(c: Config, p: Peer) {
    p.round == 0 || (p.round <= |p.dag| && |p.dag[p.round - 1]| >= 2 * ((|c.peers| - 1) / 3) + 1)
  }

  lemma GuardIs(c: Config, p: Peer)
    requires c.peers != {} && Shape(c, p) && p.round <= c.lastRound
    ensures CanAdvance(c, p) <==> MayAdvance(c, p)
  {
  }

  lemma ReachableShape(c: Config, s: State, p: nat)
    requires Deployment(c) && Reachable(c, s) && p in s.peers
    ensures Inv(c, s) && c.peers != {} && Shape(c, s.peers[p]) && p in c.peers
  {
    hide Reachable, Inv, DagOk, Places, LedgerOk;
    ReachableInv(c, s);
    PeerView(c, s, p);
  }

  // ---- Advancing ----

  /** A running peer can advance exactly up to the last round and with 2f + 1 vertices in its row. */
  lemma AdvanceExactlyWhen(c: Config, s: State, p: nat)
    requires Deployment(c) && Reachable(c, s) && p in s.peers
    ensures (exists refs, s' :: NextStep(c, s, s', Advance(p, refs)))
       <==> s.peers[p].status == Running && s.peers[p].round <= c.lastRound && MayAdvance(c, s.peers[p])
  {
    hide Deployment, Reachable, Inv, MayAdvance, CanAdvance, Shape, AdvanceRound, KeyOf, ListsPreviousRow;
    ReachableShape(c, s, p);
    var me := s.peers[p];
    if me.round <= c.lastRound { GuardIs(c, me); }
    if exists refs, s' :: NextStep(c, s, s', Advance(p, refs)) {
      var refs, s' :| NextStep(c, s, s', Advance(p, refs));
      AdvanceGuard(c, s, s', p, refs);
    }
    if me.status == Running && me.round <= c.lastRound && MayAdvance(c, me) {
      var refs: seq<Key> := [];
      if me.round < c.lastRound { refs := C.AnyListing(c, me); }
      var p' := AdvanceRound(c, p, me, refs);
      var v := NewVertex(p'.round, p, refs);
      var s' := if me.round < c.lastRound
                then State(s.peers[p := p'], s.net + Broadcast(c, p, p'.blackList, v), s.created[KeyOf(c, v) := v])
                else State(s.peers[p := p'], s.net, s.created);
      assert NextStep(c, s, s', Advance(p, refs));
    }
  }

  lemma AdvanceGuard(c: Config, s: State, s': State, p: nat, refs: seq<Key>)
    requires NextStep(c, s, s', Advance(p, refs))
    ensures Runs(s, p) && Shape(c, s.peers[p]) && CanAdvance(c, s.peers[p]) && s.peers[p].round <= c.lastRound
    ensures s.peers[p].round < c.lastRound ==> ListsPreviousRow(c, s.peers[p], refs)
  {
    hide AdvanceRound, KeyOf;
  }

  /** The new vertex lists the whole previous row once; it is put into the map and into a new row of its own, and it is sent,
      alone, to every other peer that is not blacklisted. Nothing else is sent, nobody else changes. */
  lemma AdvanceLaw(c: Config, s: State, s': State, p: nat, refs: seq<Key>)
    requires Deployment(c) && Reachable(c, s) && NextStep(c, s, s', Advance(p, refs))
    ensures p in s.peers && p in s'.peers && s'.peers == s.peers[p := s'.peers[p]]
    ensures var me, me' := s.peers[p], s'.peers[p];
            && me.round <= |me.dag| + 1
            && me' == me.(round := me.round + 1, dag := me'.dag, vmap := me'.vmap, blackList := me'.blackList, asking := me'.asking,
                          scans := me'.scans, orders := me'.orders)
            && (me.round == c.lastRound ==> me'.dag == me.dag && me'.vmap == me.vmap && s'.net == s.net && s'.created == s.created)
            && (me.round < c.lastRound ==> me.round == |me.dag| && Enters(c, s, s', p, refs))
  {
    hide Deployment, Reachable, Inv, WaveWork, KeyOf, NewPayload;
    ReachableShape(c, s, p);
    if s.peers[p].round < c.lastRound { NewVertexEnters(c, s, s', p, refs); }
  }

  ghost predicate Enters(c: Config, s: State, s': State, p: nat, refs: seq<Key>)
    requires p in s.peers && p in s'.peers && |s.peers[p].dag| == s.peers[p].round
  {
    var me, me' := s.peers[p], s'.peers[p];
    var v := Vertex(me.round + 1, p, Decimal(me.round + 1) + [45] + Decimal(p), refs);
    var k := c.hash(Id(me.round + 1, p));
    && (if me.round == 0 then refs == [] else Distinct(refs) && forall r :: r in refs <==> r in me.dag[me.round - 1])
    && me'.dag == me.dag + [{k}] && me'.vmap == me.vmap[k := v] && s'.created == s.created[k := v]
    && s.net <= s'.net
    && (forall q :: q in c.peers && q != p && q !in me'.blackList ==> Packet(q, [v]) in s'.net)
    && (forall m :: m in s'.net && m !in s.net ==>
          m.Packet? && m.vertices == [v] && m.dest in c.peers && m.dest != p && m.dest !in me'.blackList)
  }

  lemma NewVertexEnters(c: Config, s: State, s': State, p: nat, refs: seq<Key>)
    requires NextStep(c, s, s', Advance(p, refs)) && s.peers[p].round < c.lastRound
    ensures p in s'.peers && |s.peers[p].dag| == s.peers[p].round && Enters(c, s, s', p, refs)
  {
    hide WaveWork, Id;
    var me, me' := s.peers[p], s'.peers[p];
    if me.round > 0 { assert forall r :: r in refs <==> r in Elements(refs); }
    var v := NewVertex(me.round + 1, p, refs);
    assert s'.net == s.net + Broadcast(c, p, me'.blackList, v);
    forall q | q in c.peers && q != p && q !in me'.blackList ensures Packet(q, [v]) in s'.net {
      assert Packet(q, [v]) in Broadcast(c, p, me'.blackList, v);
    }
  }

  // ---- Waves ----

  lemma FullLacksNobody(c: Config, s: State, p: nat, i: nat)
    requires Inv(c, s) && p in s.peers && i < |s.peers[p].dag| && |s.peers[p].dag[i]| >= |c.peers|
    ensures forall q :: !Lacks(c, s.peers[p].dag, i, q)
  {
    hide Inv, Id;
    var row := s.peers[p].dag[i];
    forall q | q in c.peers ensures c.hash(Id(i + 1, q)) in row {
      W.FullRow(c, s, p, i, q);
      assert VertexKey(c, i + 1, q) in row;
    }
  }

  lemma SparseLacksSomebody(c: Config, s: State, p: nat, i: nat)
    requires Deployment(c) && Inv(c, s) && p in s.peers && i < |s.peers[p].dag| && |s.peers[p].dag[i]| < |c.peers|
    ensures exists q :: Lacks(c, s.peers[p].dag, i, q)
  {
    RowInRange(c, s, p);
    DeploymentKeys(c);
    hide Inv, Deployment, DistinctKeys, Id;
    var row := s.peers[p].dag[i];
    C.RowSize(c, i + 1);
    if C.Row(c, i + 1) <= row { SubsetSize(C.Row(c, i + 1), row); }
    var k :| k in C.Row(c, i + 1) && k !in row;
    var q :| q in c.peers && VertexKey(c, i + 1, q) == k;
    assert Lacks(c, s.peers[p].dag, i, q);
  }

  /** A row has fewer vertices than there are peers exactly when it lacks somebody's. */
  lemma SparseExactly(c: Config, s: State, p: nat, i: nat)
    requires Deployment(c) && Inv(c, s) && p in s.peers && i < |s.peers[p].dag|
    ensures |s.peers[p].dag[i]| < |c.peers| <==> exists q :: Lacks(c, s.peers[p].dag, i, q)
  {
    hide Inv, Deployment, Lacks;
    if |s.peers[p].dag[i]| >= |c.peers| { FullLacksNobody(c, s, p, i); } else { SparseLacksSomebody(c, s, p, i); }
  }

  lemma RowInRange(c: Config, s: State, p: nat)
    requires Inv(c, s) && p in s.peers
    ensures |s.peers[p].dag| <= c.lastRound
  {
    hide DagOk, Places, LedgerOk, VertexKey;
    PeerView(c, s, p);
  }

  /** Rounds 8, 12, 16, ... ask for the rows of the last wave but one that lack somebody's vertex; rounds 10, 14, 18, ...
      blacklist everybody else who is missing from a row of the wave before; no other round does either. */
  lemma WaveLaw(c: Config, s: State, s': State, p: nat, refs: seq<Key>)
    requires Deployment(c) && Reachable(c, s) && NextStep(c, s, s', Advance(p, refs))
    ensures p in s.peers && p in s'.peers
    ensures var me, me', r := s.peers[p], s'.peers[p], s.peers[p].round;
            && (forall i: nat :: i in me'.asking <==>
                  i in me.asking || (r % 4 == 0 && r > 4 && r - 8 <= i < r - 4 && exists q :: Lacks(c, me.dag, i, q)))
            && (forall q :: q in me'.blackList <==>
                  q in me.blackList || (r % 4 == 2 && r > 8 && q != p && exists i :: r - 10 <= i < r - 6 && Lacks(c, me.dag, i, q)))
  {
    hide Deployment, Reachable, Inv, VertexKey, Id, Lacks, AdvanceRound, NewVertex, KeyOf, Broadcast, CanAdvance, ListsPreviousRow, Shape;
    ReachableShape(c, s, p);
    AdvanceGuard(c, s, s', p, refs);
    var me, r := s.peers[p], s.peers[p].round;
    AdvanceWaves(c, p, me, refs);
    ShapeIs(c, me);
    forall i: nat | i < |me.dag| ensures |me.dag[i]| < |c.peers| <==> exists q :: Lacks(c, me.dag, i, q) {
      SparseExactly(c, s, p, i);
    }
    if r % 4 == 2 && r > 8 {
      W.BlackListExact(c, s, p, r - 10, r - 6);
      AbsentIs(c, p, me.dag, r - 10, r - 6);
    }
  }

  lemma ShapeIs(c: Config, p: Peer)
    requires Shape(c, p) && p.round <= c.lastRound
    ensures |p.dag| == p.round
  {
  }

  /** Advancing leaves the blacklist and the rows asked for as the wave work has left them. */
  lemma AdvanceWaves(c: Config, me: nat, p: Peer, refs: seq<Key>)
    requires Shape(c, p) && CanAdvance(c, p) && p.round <= c.lastRound && (p.round < c.lastRound ==> ListsPreviousRow(c, p, refs))
    ensures var p' := AdvanceRound(c, me, p, refs); var w := WaveWork(c, me, p);
            p'.asking == w.asking && p'.blackList == w.blackList
  {
    hide WaveWork, KeyOf, NewPayload;
  }

  lemma AbsentIs(c: Config, me: nat, dag: seq<set<Key>>, start: int, end: int)
    requires 0 <= start && end <= |dag|
    ensures forall q :: q in W.Absent(c, me, dag, start, end) <==> q != me && exists i :: start <= i < end && Lacks(c, dag, i, q)
  {
    hide Id;
    forall q | q in W.Absent(c, me, dag, start, end) ensures q != me && exists i :: start <= i < end && Lacks(c, dag, i, q) {
      var i: nat :| start <= i < end && q in c.peers && VertexKey(c, i + 1, q) !in dag[i];
      assert Lacks(c, dag, i, q);
    }
    forall q | q != me && exists i :: start <= i < end && Lacks(c, dag, i, q) ensures q in W.Absent(c, me, dag, start, end) {
      var i :| start <= i < end && Lacks(c, dag, i, q);
      var n: nat := i;
      assert VertexKey(c, n + 1, q) !in dag[n];
    }
  }

  // ---- Timing out ----

  /** A peer that cannot advance may time out: in the last round it lowers its stop mark; before, it asks for the rows of its
      last four rounds that lack somebody's vertex. It does nothing else. */
  lemma TimeOutLaw(c: Config, s: State, s': State, p: nat)
    requires Deployment(c) && Reachable(c, s) && NextStep(c, s, s', Wait(p))
    ensures p in s.peers && p in s'.peers && s' == s.(peers := s.peers[p := s'.peers[p]])
    ensures var me, me', r := s.peers[p], s'.peers[p], s.peers[p].round;
            && me.status == Running && r <= c.lastRound && !MayAdvance(c, me)
            && (r == c.lastRound ==> me' == me.(stop := me.stop - 1))
            && (r < c.lastRound ==>
                  && me' == me.(asking := me'.asking, scans := me'.scans)
                  && forall i: nat :: i in me'.asking <==> i in me.asking || (r - 4 <= i < r && exists q :: Lacks(c, me.dag, i, q)))
  {
    hide Deployment, Reachable, Inv, VertexKey, Lacks, Id;
    ReachableShape(c, s, p);
    var me, r := s.peers[p], s.peers[p].round;
    GuardIs(c, me);
    forall i: nat | i < |me.dag| ensures |me.dag[i]| < |c.peers| <==> exists q :: Lacks(c, me.dag, i, q) {
      SparseExactly(c, s, p, i);
    }
  }

  /** And exactly such a peer may. */
  lemma TimeOutExactlyWhen(c: Config, s: State, p: nat)
    requires Deployment(c) && Reachable(c, s) && p in s.peers
    ensures (exists s' :: NextStep(c, s, s', Wait(p)))
       <==> s.peers[p].status == Running && s.peers[p].round <= c.lastRound && !MayAdvance(c, s.peers[p])
  {
    hide Deployment, Reachable, Inv, CanAdvance, MayAdvance, Shape, TimeOut;
    ReachableShape(c, s, p);
    var me := s.peers[p];
    if me.round <= c.lastRound { GuardIs(c, me); }
    if me.status == Running && me.round <= c.lastRound && !MayAdvance(c, me) {
      assert NextStep(c, s, s.(peers := s.peers[p := TimeOut(c, me)]), Wait(p));
    }
  }
}
