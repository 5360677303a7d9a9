/** Wave windows over whole runs, and what blacklisting means (peer.cpp:131-148, 165-183, 376-389, 485-515, 550). */
module Waves {
  import opened FiniteSets
  import opened Vertices
  import opened Protocol
  import opened Invariants
  import opened System
  import opened Theorems

  /** The i-th window given to total_order and to dag_scan: four rows, ordered two rounds after they are scanned. */
  function OrderWindow(i: nat): Window {
    Window(10 + WAVE * i, WAVE * i, WAVE * i + WAVE)
  }

  function ScanWindow(i: nat): Window {
    Window(8 + WAVE * i, WAVE * i, WAVE * i + WAVE)
  }

  /** How many of the rounds below r order, or scan, a window. */
  function OrderCount(r: nat): nat {
    if r < 11 then 0 else (r - 7) / WAVE
  }

  function ScanCount(r: nat): nat {
    if r < 9 then 0 else (r - 5) / WAVE
  }

  ghost predicate WavesOk(p: Peer) {
    && |p.orders| == OrderCount(p.round)
    && (forall i :: 0 <= i < |p.orders| ==> p.orders[i] == OrderWindow(i))
    && (forall i :: 0 <= i < ScanCount(p.round) ==> ScanWindow(i) in p.scans)
    && (forall j :: 0 <= j < |p.scans| ==> 0 <= p.scans[j].start && p.scans[j].end <= |p.dag|)
    && (forall i :: i in p.asking ==> i < |p.dag|)
  }

  lemma AdvanceWaves(c: Config, me: nat, p: Peer, refs: seq<Key>)
    requires Shape(c, p) && CanAdvance(c, p) && (p.round < c.lastRound ==> ListsPreviousRow(c, p, refs))
    requires WavesOk(p)
    ensures WavesOk(AdvanceRound(c, me, p, refs))
  {
    var r := p.round;
    Counts(r);
    hide Silent, VertexKey, Quorum, KeyOf, NewVertex, OrderCount, ScanCount, Distinct, Elements;
    var w := WaveWork(c, me, p);
    if r % WAVE == 0 && r > WAVE {
      assert w.scans == p.scans + [Window(r, r - 8, r - 4)];
      assert w.asking == p.asking + SparseRows(c, p.dag, r - 8, r - 4);
      hide WaveWork;
      assert ScanWindow(ScanCount(r)) == w.scans[|p.scans|];
      forall i | 0 <= i < ScanCount(r) ensures ScanWindow(i) in w.scans { assert ScanWindow(i) in p.scans; }
    }
  }

  lemma Counts(r: nat)
    ensures r % WAVE == 0 && r > WAVE ==>
              ScanCount(r + 1) == ScanCount(r) + 1 && OrderCount(r + 1) == OrderCount(r) && ScanWindow(ScanCount(r)) == Window(r, r - 8, r - 4)
    ensures r % WAVE == HALF_WAVE && r > 2 * WAVE ==>
              OrderCount(r + 1) == OrderCount(r) + 1 && ScanCount(r + 1) == ScanCount(r) && OrderWindow(OrderCount(r)) == Window(r, r - 10, r - 6)
    ensures !(r % WAVE == 0 && r > WAVE) && !(r % WAVE == HALF_WAVE && r > 2 * WAVE) ==>
              OrderCount(r + 1) == OrderCount(r) && ScanCount(r + 1) == ScanCount(r)
  {
  }

  lemma TimeOutWaves(c: Config, p: Peer)
    requires Shape(c, p) && !CanAdvance(c, p) && p.round <= c.lastRound && WavesOk(p)
    ensures WavesOk(TimeOut(c, p))
  {
    hide Quorum;
    var p' := TimeOut(c, p);
    forall i | 0 <= i < ScanCount(p.round) ensures ScanWindow(i) in p'.scans { assert ScanWindow(i) in p.scans; }
  }

  /** Nothing else touches the wave records. */
  lemma OtherWaves(p: Peer, p': Peer)
    requires WavesOk(p) && p'.round == p.round && |p'.dag| == |p.dag|
    requires p'.orders == p.orders && p'.scans == p.scans && p'.asking == p.asking
    ensures WavesOk(p')
  {
  }

  lemma {:induction false} AdmitAllWaves(c: Config, p: Peer, vs: seq<Vertex>)
    ensures var p' := AdmitAll(c, p, vs); p'.orders == p.orders && p'.scans == p.scans && p'.asking == p.asking
    decreases |vs|
  {
    if vs != [] { AdmitAllWaves(c, Admit(c, p, vs[0]), vs[1..]); }
  }

  lemma StepWaves(c: Config, s: State, s': State, step: Step, p: nat)
    requires NextStep(c, s, s', step) && p in s.peers && p in s'.peers && WavesOk(s.peers[p])
    ensures WavesOk(s'.peers[p])
  {
    hide WavesOk, AdvanceRound, TimeOut, Broadcast, Answers, RepairPackets, Queries, ListsRepairs, KeyOf, VertexKey, AllIndexable,
      NewVertex, AdmitAll, CanAdvance, ListsPreviousRow, Shape, ScanAll;
    match step {
      case Advance(q, refs) => if p == q { AdvanceWaves(c, p, s.peers[p], refs); }
      case Wait(q) => if p == q { TimeOutWaves(c, s.peers[p]); }
      case Deliver(q, m) =>
        if p == q {
          match m {
            case Packet(_, vertices) =>
              AdmitAllWaves(c, s.peers[p], vertices);
              AdmitAllRound(c, s.peers[p], vertices);
            case Query(_, key, asker) =>
          }
          OtherWaves(s.peers[p], s'.peers[p]);
        }
      case HandOver(q) => OtherWaves(s.peers[p], s'.peers[p]);
      case Wake(q, coins, orders) => OtherWaves(s.peers[p], s'.peers[p]);
      case Ask(_, _, _, _) =>
      case Lose(_) =>
      case Leave(q) => OtherWaves(s.peers[p], s'.peers[p]);
      case Crash(q) => OtherWaves(s.peers[p], s'.peers[p]);
    }
  }

  lemma {:induction false} WavesAlways(c: Config, tr: seq<State>, n: nat, p: nat)
    requires Deployment(c) && Run(c, tr) && n < |tr| && p in c.peers
    ensures p in tr[n].peers && WavesOk(tr[n].peers[p])
  {
    InvAlways(c, tr, n);
    InvPeers(c, tr[n]);
    if n > 0 {
      hide Deployment, NextStep, Inv, WavesOk;
      WavesAlways(c, tr, n - 1, p);
      assert Next(c, tr[n - 1], tr[n - 1 + 1]);
      var step :| NextStep(c, tr[n - 1], tr[n], step);
      StepWaves(c, tr[n - 1], tr[n], step, p);
    }
  }

  lemma ReachableWaves(c: Config, s: State, p: nat)
    requires Deployment(c) && Reachable(c, s) && p in s.peers
    ensures WavesOk(s.peers[p])
  {
    hide Deployment, Inv, WavesOk;
    ReachableInv(c, s);
    InvPeers(c, s);
    var tr :| Run(c, tr) && tr[|tr| - 1] == s;
    WavesAlways(c, tr, |tr| - 1, p);
  }

  /** The ordered windows tile [0, 4k) from the bottom with no gap and no overlap, one for each round 10, 14, 18, ... that is
      over; each was the window of the wave scan exactly two rounds earlier; every row index used is in range. */
  lemma WavesTile(c: Config, s: State, p: nat)
    requires Deployment(c) && Reachable(c, s) && p in s.peers
    ensures var me := s.peers[p];
            && |me.dag| == (if me.round <= c.lastRound then me.round else c.lastRound)
            && (forall i: nat :: i < |me.orders| <==> 4 * i + 10 < me.round)
            && (forall i :: 0 <= i < |me.orders| ==> me.orders[i] == Window(4 * i + 10, 4 * i, 4 * i + 4) && 4 * i + 4 <= |me.dag|)
            && (forall i: nat :: 4 * i + 8 < me.round ==> Window(4 * i + 8, 4 * i, 4 * i + 4) in me.scans)
            && (forall j :: 0 <= j < |me.scans| ==> 0 <= me.scans[j].start && me.scans[j].end <= |me.dag|)
  {
    hide Deployment, Reachable, Inv, DagOk, Places, LedgerOk;
    ReachableInv(c, s);
    PeerView(c, s, p);
    ReachableWaves(c, s, p);
    var me := s.peers[p];
    forall i: nat | 4 * i + 8 < me.round ensures Window(4 * i + 8, 4 * i, 4 * i + 4) in me.scans { assert ScanWindow(i) in me.scans; }
  }

  /** When the scanner has left its loop by itself, normally or after timing out in the last round, the DAG is complete
      in length and the prefix hash_dag digests lies inside the prefix total_order has inspected. */
  lemma DigestInsideInspected(c: Config, s: State, p: nat)
    requires Deployment(c) && Reachable(c, s) && p in s.peers && s.peers[p].status == Exited
    requires c.lastRound >= 12
    ensures |s.peers[p].dag| == c.lastRound
    ensures |s.peers[p].dag| - 12 <= 4 * |s.peers[p].orders|
  {
    hide Deployment, Reachable, Inv;
    ReachableInv(c, s);
    PeerLifecycle(c, s, p);
    ReachableWaves(c, s, p);
  }

  lemma PeerLifecycle(c: Config, s: State, p: nat)
    requires Inv(c, s) && p in s.peers
    ensures Shape(c, s.peers[p]) && Lifecycle(c, s.peers[p])
  {
    hide KeyBag, DagBag, DagOk, KeyOf, VertexKey;
  }

  // ---- Blacklisting ----

  /** The other peers whose vertex is missing from some row of the window. */
  ghost function Absent(c: Config, me: nat, dag: seq<set<Key>>, start: int, end: int): set<nat>
    requires 0 <= start && end <= |dag|
  {
    set q, i: nat | q in c.peers && q != me && start <= i < end && VertexKey(c, i + 1, q) !in dag[i] :: q
  }

  /** A row with as many vertices as there are peers has everyone's. */
  lemma FullRow(c: Config, s: State, p: nat, i: nat, q: nat)
    requires Inv(c, s) && p in s.peers && i < |s.peers[p].dag| && q in c.peers
    requires |s.peers[p].dag[i]| >= Crowd(c)
    ensures VertexKey(c, i + 1, q) in s.peers[p].dag[i]
  {
    var row := s.peers[p].dag[i];
    InvLedger(c, s);
    RowBound(c, s, p, i);
    forall k | k in row ensures VertexKey(c, i + 1, Creator(s.created, k)) == k && Creator(s.created, k) in c.peers {
      assert EntryOk(c, s.created, k);
    }
    hide Inv, LedgerOk, VertexKey, Creator;
    var creator := k => Creator(s.created, k);
    forall a, b | a in row && b in row && creator(a) == creator(b) ensures a == b {
      assert VertexKey(c, i + 1, Creator(s.created, a)) == a && VertexKey(c, i + 1, Creator(s.created, b)) == b;
    }
    Injection(row, c.peers, creator);
    var k :| k in row && creator(k) == q;
    assert VertexKey(c, i + 1, Creator(s.created, k)) == k;
  }

  /** Skipping the rows that look complete loses nobody: total_order adds to the blacklist exactly the other peers
      whose vertex is absent from some row of its window. */
  lemma BlackListExact(c: Config, s: State, p: nat, start: int, end: int)
    requires Deployment(c) && Reachable(c, s) && p in s.peers && 0 <= start && end <= |s.peers[p].dag|
    ensures TotalOrder(c, p, s.peers[p], end, start).blackList
         == s.peers[p].blackList + Absent(c, p, s.peers[p].dag, start, end)
  {
    hide Deployment, Reachable, Inv, VertexKey, Crowd;
    ReachableInv(c, s);
    var dag := s.peers[p].dag;
    forall q | q in Absent(c, p, dag, start, end) ensures q in Silent(c, p, dag, start, end) {
      var i: nat :| start <= i < end && VertexKey(c, i + 1, q) !in dag[i];
      if |dag[i]| >= Crowd(c) { FullRow(c, s, p, i, q); }
    }
  }
}
