/** What holds in every reachable state of the protocol: causal agreement, quorum structure, support, conservation. */
module Theorems {
  import opened FiniteSets
  import opened Vertices
  import opened Batching
  import opened Protocol
  import opened Invariants
  import opened System

  // ---- Causal histories ----

  /** Each key is a reference of the vertex stored under the key before it. */
  ghost predicate Path(vmap: map<Key, Vertex>, path: seq<Key>) {
    path != [] && forall i :: 0 <= i < |path| - 1 ==> path[i] in vmap && path[i + 1] in vmap[path[i]].refs
  }

  ghost predicate PathTo(vmap: map<Key, Vertex>, path: seq<Key>, k: Key, a: Key) {
    Path(vmap, path) && |path| > 1 && path[0] == k && path[|path| - 1] == a
  }

  ghost predicate Ancestor(vmap: map<Key, Vertex>, a: Key, k: Key) {
    exists path :: PathTo(vmap, path, k, a)
  }

  ghost predicate InDag(dag: seq<set<Key>>, k: Key) {
    exists i :: 0 <= i < |dag| && k in dag[i]
  }

  /** A path that starts in a row goes down one row at a time and stays inside the DAG. */
  lemma {:induction false} PathDescends(vmap: map<Key, Vertex>, dag: seq<set<Key>>, path: seq<Key>, row: nat, n: nat)
    requires DagOk(vmap, dag) && Path(vmap, path)
    requires row < |dag| && path[0] in dag[row] && n < |path|
    ensures n <= row && path[n] in dag[row - n]
  {
    if n > 0 {
      PathDescends(vmap, dag, path, row, n - 1);
      assert path[n - 1 + 1] in vmap[path[n - 1]].refs;
      assert RowEntryOk(vmap, dag, row - (n - 1), path[n - 1]);
    }
  }

  /** A path in one peer's map from a vertex of another peer's DAG is a path there too. */
  lemma PathCarriesOver(created: Ledger, from: Peer, to: Peer, path: seq<Key>, i: nat, j: nat)
    requires Storage(created, from.vmap) && Storage(created, to.vmap) && DagOk(from.vmap, from.dag) && DagOk(to.vmap, to.dag)
    requires Path(from.vmap, path) && i < |from.dag| && path[0] in from.dag[i] && j < |to.dag| && path[0] in to.dag[j]
    ensures Path(to.vmap, path)
  {
    forall n | 0 <= n < |path| - 1 ensures path[n] in to.vmap && path[n + 1] in to.vmap[path[n]].refs {
      CarryPrefix(created, from, to, path, i, j, n);
    }
  }

  lemma {:induction false} CarryPrefix(created: Ledger, from: Peer, to: Peer, path: seq<Key>, i: nat, j: nat, n: nat)
    requires Storage(created, from.vmap) && Storage(created, to.vmap) && DagOk(from.vmap, from.dag) && DagOk(to.vmap, to.dag)
    requires Path(from.vmap, path) && i < |from.dag| && path[0] in from.dag[i] && j < |to.dag| && path[0] in to.dag[j]
    requires n < |path|
    ensures n <= j && path[n] in to.dag[j - n] && path[n] in to.vmap
  {
    if n > 0 {
      CarryPrefix(created, from, to, path, i, j, n - 1);
      assert path[n - 1 + 1] in from.vmap[path[n - 1]].refs;
      assert RowEntryOk(to.vmap, to.dag, j - (n - 1), path[n - 1]);
      assert to.vmap[path[n - 1]] == from.vmap[path[n - 1]];
    }
    assert RowEntryOk(to.vmap, to.dag, j - n, path[n]);
  }

  /** Agreement: peers that share a vertex hold it in the same round with the same record, have the same set of
      ancestors for it, and all these ancestors lie in both DAGs. */
  lemma Agreement(c: Config, s: State, p: nat, q: nat, k: Key, i: nat, j: nat)
    requires Deployment(c) && Reachable(c, s) && p in s.peers && q in s.peers
    requires i < |s.peers[p].dag| && k in s.peers[p].dag[i] && j < |s.peers[q].dag| && k in s.peers[q].dag[j]
    ensures i == j && k in s.peers[p].vmap && k in s.peers[q].vmap && s.peers[p].vmap[k] == s.peers[q].vmap[k]
    ensures forall a :: Ancestor(s.peers[p].vmap, a, k) <==> Ancestor(s.peers[q].vmap, a, k)
    ensures forall a :: Ancestor(s.peers[p].vmap, a, k) ==> InDag(s.peers[p].dag, a) && InDag(s.peers[q].dag, a)
  {
    hide Inv, Reachable, Deployment, LedgerOk, Places, OwnRows, Waiting, VertexKey, Ancestor, InDag;
    ReachableInv(c, s);
    var mine, theirs := s.peers[p], s.peers[q];
    PeerView(c, s, p);
    PeerView(c, s, q);
    assert RowEntryOk(mine.vmap, mine.dag, i, k) && RowEntryOk(theirs.vmap, theirs.dag, j, k);
    forall a | Ancestor(mine.vmap, a, k) ensures Ancestor(theirs.vmap, a, k) && InDag(mine.dag, a) && InDag(theirs.dag, a) {
      AncestorCarriesOver(s.created, mine, theirs, k, a, i, j);
    }
    forall a | Ancestor(theirs.vmap, a, k) ensures Ancestor(mine.vmap, a, k) {
      AncestorCarriesOver(s.created, theirs, mine, k, a, j, i);
    }
  }

  lemma AncestorCarriesOver(created: Ledger, from: Peer, to: Peer, k: Key, a: Key, i: nat, j: nat)
    requires Storage(created, from.vmap) && Storage(created, to.vmap) && DagOk(from.vmap, from.dag) && DagOk(to.vmap, to.dag)
    requires i < |from.dag| && k in from.dag[i] && j < |to.dag| && k in to.dag[j] && Ancestor(from.vmap, a, k)
    ensures Ancestor(to.vmap, a, k) && InDag(from.dag, a) && InDag(to.dag, a)
  {
    var path :| PathTo(from.vmap, path, k, a);
    PathCarriesOver(created, from, to, path, i, j);
    assert PathTo(to.vmap, path, k, a);
    PathDescends(from.vmap, from.dag, path, i, |path| - 1);
    PathDescends(to.vmap, to.dag, path, j, |path| - 1);
  }

  /** The parts of a peer's invariant used below. */
  lemma PeerView(c: Config, s: State, p: nat)
    requires Inv(c, s) && p in s.peers
    ensures Storage(s.created, s.peers[p].vmap) && DagOk(s.peers[p].vmap, s.peers[p].dag) && Shape(c, s.peers[p])
    ensures RowsHaveQuorum(c, s.peers[p].round, s.peers[p].dag) && OwnRows(c, p, s.peers[p].dag)
    ensures Places(c, s.peers[p]) == multiset(s.peers[p].vmap.Keys)
    ensures Waiting(c, s.peers[p].vmap, s.peers[p].temp) && Waiting(c, s.peers[p].vmap, s.peers[p].buffer)
    ensures p in c.peers && LedgerOk(c, s.created)
  {
    hide KeyBag, DagBag, KeyOf, VertexKey, LedgerOk;
  }

  lemma InvLedger(c: Config, s: State)
    requires Inv(c, s)
    ensures LedgerOk(c, s.created)
  {
  }

  // ---- Counting ----

  ghost function Creator(created: Ledger, k: Key): nat {
    if k in created then created[k].pid else 0
  }

  /** There is at most one vertex per round and creator. */
  lemma RoundBound(c: Config, created: Ledger, keys: set<Key>, round: int)
    requires LedgerOk(c, created)
    requires forall k :: k in keys ==> k in created && created[k].round == round
    ensures |keys| <= Crowd(c)
    ensures |Image(keys, k => Creator(created, k))| == |keys|
  {
    forall k | k in keys ensures VertexKey(c, round, Creator(created, k)) == k && Creator(created, k) in c.peers {
      assert EntryOk(c, created, k);
    }
    hide VertexKey, LedgerOk, Creator;
    var creator := k => Creator(created, k);
    forall a, b | a in keys && b in keys && creator(a) == creator(b) ensures a == b {
      assert VertexKey(c, round, Creator(created, a)) == a && VertexKey(c, round, Creator(created, b)) == b;
    }
    ImageSize(keys, creator);
    SubsetSize(Image(keys, creator), c.peers);
  }

  /** A row holds at most one vertex per peer. */
  lemma RowBound(c: Config, s: State, p: nat, i: nat)
    requires Inv(c, s) && p in s.peers && i < |s.peers[p].dag|
    ensures |s.peers[p].dag[i]| <= Crowd(c)
    ensures forall k :: k in s.peers[p].dag[i] ==> k in s.created && s.created[k].round == i + 1
  {
    PeerView(c, s, p);
    hide Inv, VertexKey, LedgerOk;
    var me := s.peers[p];
    forall k | k in me.dag[i] ensures k in s.created && s.created[k].round == i + 1 {
      assert RowEntryOk(me.vmap, me.dag, i, k);
    }
    RoundBound(c, s.created, me.dag[i], i + 1);
  }

  /** The peers whose round-r vertex is in their own DAG, that is, who have created it. */
  ghost function Creators(c: Config, s: State, r: nat): set<nat> {
    set q | q in s.peers && 1 <= r <= |s.peers[q].dag| && VertexKey(c, r, q) in s.peers[q].dag[r - 1]
  }

  /** No peer outruns a quorum: in round r >= 2 it holds between 2f+1 and n vertices in each row below, and
      2f+1 peers have created their round r - 1 vertex. */
  lemma NoPeerOutrunsQuorum(c: Config, s: State, p: nat)
    requires Deployment(c) && Reachable(c, s) && p in s.peers && 2 <= s.peers[p].round <= c.lastRound
    ensures |Creators(c, s, s.peers[p].round - 1)| >= Quorum(c)
    ensures |s.peers[p].dag| == s.peers[p].round
    ensures forall i :: 0 <= i < s.peers[p].round - 1 ==> Quorum(c) <= |s.peers[p].dag[i]| <= Crowd(c)
  {
    hide Reachable, Deployment, Inv, VertexKey, LedgerOk, DagOk, Places, Creators, OwnRows, Waiting;
    ReachableInv(c, s);
    PeerView(c, s, p);
    var me := s.peers[p];
    forall i | 0 <= i < me.round - 1 ensures |me.dag[i]| <= Crowd(c) { RowBound(c, s, p, i); }
    var r := me.round - 1;
    var row := me.dag[r - 1];
    RowBound(c, s, p, r - 1);
    RoundBound(c, s.created, row, r);
    var creators := Image(row, k => Creator(s.created, k));
    forall k | k in row ensures Creator(s.created, k) in Creators(c, s, r) { CreatorHolds(c, s, k); }
    SubsetSize(creators, Creators(c, s, r));
  }

  lemma CreatorHolds(c: Config, s: State, k: Key)
    requires Inv(c, s) && k in s.created
    ensures s.created[k].pid in Creators(c, s, s.created[k].round)
  {
    hide VertexKey;
    var v := s.created[k];
    assert EntryOk(c, s.created, k);
    PeerView(c, s, v.pid);
    hide Inv;
    assert VertexKey(c, v.round - 1 + 1, v.pid) in s.peers[v.pid].dag[v.round - 1];
  }

  // ---- Quorums in the history of a vertex ----

  /** The references of a vertex of a row: a quorum of vertices of the row below. */
  lemma RefsQuorum(c: Config, s: State, p: nat, i: nat, k: Key)
    requires Inv(c, s) && p in s.peers && 0 < i < |s.peers[p].dag| && k in s.peers[p].dag[i]
    ensures k in s.peers[p].vmap && k in s.created && s.peers[p].vmap[k] == s.created[k]
    ensures Elements(s.peers[p].vmap[k].refs) <= s.peers[p].dag[i - 1]
    ensures |Elements(s.peers[p].vmap[k].refs)| >= Quorum(c)
  {
    PeerView(c, s, p);
    hide Inv, VertexKey;
    var me := s.peers[p];
    assert RowEntryOk(me.vmap, me.dag, i, k);
    assert EntryOk(c, s.created, k);
    DistinctSize(me.vmap[k].refs);
  }

  /** From a vertex of row i one can descend to any lower row. */
  lemma {:induction false} Descend(c: Config, s: State, p: nat, i: nat, j: nat, k: Key) returns (path: seq<Key>)
    requires Inv(c, s) && p in s.peers && j <= i < |s.peers[p].dag| && k in s.peers[p].dag[i]
    ensures Path(s.peers[p].vmap, path) && path[0] == k && |path| == i - j + 1
    ensures path[|path| - 1] in s.peers[p].dag[j]
    decreases i - j
  {
    hide Inv;
    if i == j {
      path := [k];
    } else {
      RefsQuorum(c, s, p, i, k);
      var refs := s.peers[p].vmap[k].refs;
      assert |Elements(refs)| > 0 && (refs == [] ==> Elements(refs) == {});
      assert refs[0] in Elements(refs);
      hide Path;
      var rest := Descend(c, s, p, i - 1, j, refs[0]);
      path := [k] + rest;
      PathCons(s.peers[p].vmap, k, rest);
    }
  }

  lemma PathCons(vmap: map<Key, Vertex>, k: Key, rest: seq<Key>)
    requires Path(vmap, rest) && k in vmap && rest[0] in vmap[k].refs
    ensures Path(vmap, [k] + rest)
  {
    var path := [k] + rest;
    forall i | 0 <= i < |path| - 1 ensures path[i] in vmap && path[i + 1] in vmap[path[i]].refs {
      if i > 0 { assert path[i] == rest[i - 1] && path[i + 1] == rest[i]; }
    }
  }

  lemma PathSnoc(vmap: map<Key, Vertex>, path: seq<Key>, r: Key)
    requires Path(vmap, path) && path[|path| - 1] in vmap && r in vmap[path[|path| - 1]].refs
    ensures PathTo(vmap, path + [r], path[0], r)
  {
    var longer := path + [r];
    forall i | 0 <= i < |longer| - 1 ensures longer[i] in vmap && longer[i + 1] in vmap[longer[i]].refs {
      if i < |path| - 1 { assert longer[i + 1] == path[i + 1]; }
    }
  }

  /** Deep quorum: a vertex has at least 2f+1 ancestors in every earlier row. */
  lemma DeepQuorum(c: Config, s: State, p: nat, i: nat, j: nat, k: Key)
    requires Deployment(c) && Reachable(c, s) && p in s.peers
    requires j < i < |s.peers[p].dag| && k in s.peers[p].dag[i]
    ensures |set a | a in s.peers[p].dag[j] && Ancestor(s.peers[p].vmap, a, k)| >= Quorum(c)
  {
    hide Reachable, Inv, Path, Deployment;
    ReachableInv(c, s);
    var me := s.peers[p];
    var path := Descend(c, s, p, i, j + 1, k);
    var b := path[|path| - 1];
    RefsQuorum(c, s, p, j + 1, b);
    forall r | r in me.vmap[b].refs ensures Ancestor(me.vmap, r, k) {
      PathSnoc(me.vmap, path, r);
    }
    assert Elements(me.vmap[b].refs) <= set a | a in me.dag[j] && Ancestor(me.vmap, a, k);
    SubsetSize(Elements(me.vmap[b].refs), set a | a in me.dag[j] && Ancestor(me.vmap, a, k));
  }

  /** Any two vertices of a round, at any two peers, share 2(2f+1) - n direct references; f+1 when n = 3f+1. */
  lemma SharedReferences(c: Config, s: State, p: nat, q: nat, i: nat, k: Key, l: Key)
    requires Deployment(c) && Reachable(c, s) && p in s.peers && q in s.peers && 0 < i
    requires i < |s.peers[p].dag| && k in s.peers[p].dag[i] && i < |s.peers[q].dag| && l in s.peers[q].dag[i]
    ensures k in s.peers[p].vmap && l in s.peers[q].vmap
    ensures var shared := Elements(s.peers[p].vmap[k].refs) * Elements(s.peers[q].vmap[l].refs);
            |shared| >= 2 * Quorum(c) - Crowd(c) && (Crowd(c) % 3 == 1 ==> |shared| >= Faults(c) + 1)
  {
    hide Reachable, Inv, Deployment, LedgerOk;
    ReachableInv(c, s);
    InvLedger(c, s);
    RefsQuorum(c, s, p, i, k);
    RefsQuorum(c, s, q, i, l);
    var a, b := Elements(s.peers[p].vmap[k].refs), Elements(s.peers[q].vmap[l].refs);
    hide Elements;
    RowBound(c, s, p, i - 1);
    RowBound(c, s, q, i - 1);
    RoundBound(c, s.created, a + b, i);
    Overlap(a, b, a + b);
  }

  // ---- Support ----

  /** Somewhere in the system there is a copy of v: in a peer's map or in a message. */
  ghost predicate Held(s: State, v: Vertex) {
    || (exists p, k :: p in s.peers && k in s.peers[p].vmap && s.peers[p].vmap[k] == v)
    || (exists m, i :: m in s.net && m.Packet? && 0 <= i < |m.vertices| && m.vertices[i] == v)
  }

  lemma HeldIsGenuine(c: Config, s: State, v: Vertex)
    requires Inv(c, s) && Held(s, v)
    ensures Genuine(c, s.created, v)
  {
    hide VertexKey, KeyBag, DagBag, DagOk;
    if p, k :| p in s.peers && k in s.peers[p].vmap && s.peers[p].vmap[k] == v {
      PeerView(c, s, p);
      assert EntryOk(c, s.created, k);
    }
  }

  /** Support persistence: once more than n - (2f+1) round r + 1 vertices, held anywhere, reference u, then from then on
      u is an ancestor of every vertex of every round >= r + 2 in every DAG. */
  lemma SupportPersists(c: Config, tr: seq<State>, before: nat, now: nat, supporters: set<Vertex>, u: Key, r: nat,
                        p: nat, i: nat, k: Key)
    requires Deployment(c) && Run(c, tr) && before <= now < |tr|
    requires forall v :: v in supporters ==> Held(tr[before], v) && v.round == r + 1 && u in v.refs
    requires |supporters| > Crowd(c) - Quorum(c)
    requires p in tr[now].peers && r + 1 <= i < |tr[now].peers[p].dag| && k in tr[now].peers[p].dag[i]
    ensures Ancestor(tr[now].peers[p].vmap, u, k)
  {
    hide Run, Deployment, Held, Inv, Path, KeyOf, PeerGrows, Ancestor;
    InvAlways(c, tr, before);
    InvAlways(c, tr, now);
    RunGrows(c, tr, before, now);
    var s := tr[now];
    forall v | v in supporters ensures Genuine(c, s.created, v) { HeldIsGenuine(c, tr[before], v); }
    var w, path := FindSupporter(c, s, supporters, r, p, i, k);
    PathSnoc(s.peers[p].vmap, path, u);
    assert PathTo(s.peers[p].vmap, path + [u], k, u);
    AncestorBy(s.peers[p].vmap, path + [u], k, u);
  }

  lemma AncestorBy(vmap: map<Key, Vertex>, path: seq<Key>, k: Key, a: Key)
    requires PathTo(vmap, path, k, a)
    ensures Ancestor(vmap, a, k)
  {
  }

  lemma FindSupporter(c: Config, s: State, supporters: set<Vertex>, r: nat, p: nat, i: nat, k: Key) returns (w: Vertex, path: seq<Key>)
    requires Inv(c, s)
    requires forall v :: v in supporters ==> Genuine(c, s.created, v) && v.round == r + 1
    requires |supporters| > Crowd(c) - Quorum(c)
    requires p in s.peers && r + 1 <= i < |s.peers[p].dag| && k in s.peers[p].dag[i]
    ensures w in supporters && Path(s.peers[p].vmap, path) && path[0] == k
    ensures path[|path| - 1] in s.peers[p].vmap && s.peers[p].vmap[path[|path| - 1]] == w
  {
    hide Inv, VertexKey, KeyOf, LedgerOk, Places, OwnRows, Waiting, Path, Genuine;
    InvLedger(c, s);
    PeerView(c, s, p);
    var me := s.peers[p];
    var down := Descend(c, s, p, i, r + 1, k);
    var b := down[|down| - 1];
    RefsQuorum(c, s, p, r + 1, b);
    RowBound(c, s, p, r);
    var wk := SharedKey(c, s.created, Elements(me.vmap[b].refs), supporters, r);
    w :| w in supporters && KeyOf(c, w) == wk;
    PathSnoc(me.vmap, down, wk);
    path := down + [wk];
    assert path[0] == down[0];
    RowHoldsSupporter(c, s, p, r, wk, w);
  }

  lemma RowHoldsSupporter(c: Config, s: State, p: nat, r: nat, k: Key, w: Vertex)
    requires Inv(c, s) && p in s.peers && r < |s.peers[p].dag| && k in s.peers[p].dag[r]
    requires Genuine(c, s.created, w) && KeyOf(c, w) == k
    ensures k in s.peers[p].vmap && s.peers[p].vmap[k] == w
  {
    hide Inv, VertexKey, KeyOf, LedgerOk, Places, OwnRows, Waiting;
    PeerView(c, s, p);
    assert RowEntryOk(s.peers[p].vmap, s.peers[p].dag, r, k);
  }

  /** A quorum of round r + 1 keys contains the key of a supporter. */
  lemma SharedKey(c: Config, created: Ledger, refs: set<Key>, supporters: set<Vertex>, r: nat) returns (wk: Key)
    requires LedgerOk(c, created) && |refs| >= Quorum(c)
    requires forall k :: k in refs ==> k in created && created[k].round == r + 1
    requires forall v :: v in supporters ==> Genuine(c, created, v) && v.round == r + 1
    requires |supporters| > Crowd(c) - Quorum(c)
    ensures wk in refs && exists v :: v in supporters && KeyOf(c, v) == wk
  {
    hide LedgerOk, KeyOf, VertexKey, Quorum, Crowd;
    var keyOf: Vertex -> Key := v => KeyOf(c, v);
    var keys := Image(supporters, keyOf);
    ImageSize(supporters, keyOf);
    RoundBound(c, created, refs + keys, r + 1);
    Overlap(refs, keys, refs + keys);
    assert |refs * keys| > 0;
    wk :| wk in refs * keys;
  }

  // ---- Growth ----

  ghost predicate PeerGrows(p: Peer, later: Peer) {
    && p.round <= later.round && |p.dag| <= |later.dag|
    && (forall i :: 0 <= i < |p.dag| ==> p.dag[i] <= later.dag[i])
    && Extends(p.vmap, later.vmap)
  }

  /** Rounds, rows, maps and the ledger only grow. */
  ghost predicate Grows(s: State, later: State) {
    && s.peers.Keys == later.peers.Keys
    && (forall p :: p in s.peers ==> PeerGrows(s.peers[p], later.peers[p]))
    && Extends(s.created, later.created)
  }

  lemma StepGrows(c: Config, s: State, s': State, step: Step)
    requires DistinctKeys(c) && Inv(c, s) && NextStep(c, s, s', step)
    ensures Grows(s, s')
  {
    hide Inv, KeyOf, VertexKey, WakeUp, AdvanceRound, TimeOut, DistinctKeys, ListsRepairs, ScanBuffer, RepairPackets, Answers,
      Broadcast, Queries, CanAdvance, AllIndexable, NewVertex, AdmitAll, ListsPreviousRow, Shape, AskOk;
    InvPeers(c, s);
    SelfGrows(s);
    hide PeerGrows, Extends;
    match step {
      case Advance(p, refs) => AdvanceStepGrows(c, s, s', p, refs);
      case Wait(p) => TimeOutGrows(c, s.peers[p]);
      case Deliver(p, m) =>
        match m {
          case Packet(_, vertices) => AdmitAllGrows(c, s.peers[p], vertices);
          case Query(_, key, asker) => SameDagGrows(s.peers[p], s'.peers[p]);
        }
      case HandOver(p) => SameDagGrows(s.peers[p], s'.peers[p]);
      case Wake(p, coins, orders) => WakeGrows(c, s, p, coins);
      case Leave(p) => SameDagGrows(s.peers[p], s'.peers[p]);
      case Crash(p) => SameDagGrows(s.peers[p], s'.peers[p]);
      case _ =>
    }
  }

  lemma AdvanceStepGrows(c: Config, s: State, s': State, p: nat, refs: seq<Key>)
    requires DistinctKeys(c) && Inv(c, s) && NextStep(c, s, s', Advance(p, refs))
    ensures Grows(s, s')
  {
    hide Inv, KeyOf, AdvanceRound, DistinctKeys, Broadcast, CanAdvance, ListsPreviousRow, PeerGrows, Extends, NewVertex;
    AdvanceGrows(c, s, p, refs);
    InvPeers(c, s);
    SelfGrows(s);
    var v := NewVertex(s'.peers[p].round, p, refs);
    ExtendsByOne(s.created, KeyOf(c, v), v);
  }

  lemma SelfGrows(s: State)
    ensures Grows(s, s)
  {
  }

  lemma ExtendsByOne(created: Ledger, k: Key, v: Vertex)
    ensures k !in created ==> Extends(created, created[k := v])
  {
  }

  lemma SameDagGrows(p: Peer, later: Peer)
    requires p.round == later.round && p.dag == later.dag && p.vmap == later.vmap
    ensures PeerGrows(p, later)
  {
  }

  lemma AdmitAllGrows(c: Config, p: Peer, vs: seq<Vertex>)
    ensures PeerGrows(p, AdmitAll(c, p, vs))
  {
    AdmitAllRound(c, p, vs);
  }

  lemma InvPeers(c: Config, s: State)
    requires Inv(c, s)
    ensures s.peers.Keys == c.peers
  {
  }

  lemma TimeOutGrows(c: Config, p: Peer)
    requires Shape(c, p) && !CanAdvance(c, p) && p.round <= c.lastRound
    ensures PeerGrows(p, TimeOut(c, p))
  {
  }

  lemma AdvanceGrows(c: Config, s: State, p: nat, refs: seq<Key>)
    requires DistinctKeys(c) && Inv(c, s) && p in s.peers && Shape(c, s.peers[p]) && CanAdvance(c, s.peers[p])
    requires s.peers[p].round < c.lastRound ==> ListsPreviousRow(c, s.peers[p], refs)
    ensures PeerGrows(s.peers[p], AdvanceRound(c, p, s.peers[p], refs))
    ensures s.peers[p].round < c.lastRound ==>
              KeyOf(c, NewVertex(AdvanceRound(c, p, s.peers[p], refs).round, p, refs)) !in s.created
  {
    hide WaveWork, VertexKey, DistinctKeys, NewPayload, Inv, DagOk, Places, LedgerOk, OwnRows, Waiting;
    if s.peers[p].round < c.lastRound { FreshKey(c, s, p); }
    PeerView(c, s, p);
  }

  lemma WakeGrows(c: Config, s: State, p: nat, coins: seq<bool>)
    requires Inv(c, s) && p in s.peers && AllIndexable(s.peers[p].round, s.peers[p].dag, s.peers[p].buffer)
    requires |coins| == |s.peers[p].buffer|
    ensures PeerGrows(s.peers[p], WakeUp(c, s.peers[p], coins))
  {
    hide LedgerOk, PeerOk, ScanAll;
    WakeUpKeeps(c, s.created, p, s.peers[p], coins);
  }

  lemma {:induction false} RunGrows(c: Config, tr: seq<State>, i: nat, j: nat)
    requires Deployment(c) && Run(c, tr) && i <= j < |tr|
    ensures Grows(tr[i], tr[j])
    decreases j - i
  {
    hide Deployment, NextStep, Inv, DistinctKeys, Init, Grows;
    if i == j {
      SelfGrows(tr[i]);
    } else {
      RunGrows(c, tr, i, j - 1);
      InvAlways(c, tr, j - 1);
      DeploymentKeys(c);
      assert Next(c, tr[j - 1], tr[j - 1 + 1]);
      var step :| NextStep(c, tr[j - 1], tr[j], step);
      StepGrows(c, tr[j - 1], tr[j], step);
      GrowsTransitive(tr[i], tr[j - 1], tr[j]);
    }
  }

  lemma GrowsTransitive(a: State, b: State, d: State)
    requires Grows(a, b) && Grows(b, d)
    ensures Grows(a, d)
  {
    forall p | p in a.peers ensures PeerGrows(a.peers[p], d.peers[p]) {
      assert PeerGrows(a.peers[p], b.peers[p]) && PeerGrows(b.peers[p], d.peers[p]);
    }
  }

  // ---- Conservation ----

  /** Each admitted vertex is in exactly one place, once; nothing else is anywhere. */
  lemma VerticesConserved(c: Config, s: State, p: nat, k: Key)
    requires Deployment(c) && Reachable(c, s) && p in s.peers
    ensures Places(c, s.peers[p])[k] == if k in s.peers[p].vmap then 1 else 0
  {
    hide Reachable, Inv, Deployment, DagOk, Places, VertexKey;
    ReachableInv(c, s);
    PeerView(c, s, p);
  }

  /** A peer's own vertices sit in its DAG and never in the lists of vertices waiting to enter it. */
  lemma OwnVerticesNeverBuffered(c: Config, s: State, p: nat, i: nat)
    requires Deployment(c) && Reachable(c, s) && p in s.peers
    requires i < |s.peers[p].temp + s.peers[p].buffer|
    ensures (s.peers[p].temp + s.peers[p].buffer)[i].pid != p
  {
    hide Reachable, Inv, Deployment, DagOk, KeyBag, DagBag, VertexKey;
    ReachableInv(c, s);
    PeerView(c, s, p);
    var me := s.peers[p];
    var waiting := me.temp + me.buffer;
    var v := waiting[i];
    KeyBagAppend(c, me.temp, me.buffer);
    KeyBagMember(c, waiting, i);
    assert EntryOk(c, s.created, KeyOf(c, v));
    if v.pid == p {
      OwnRound(c, s, KeyOf(c, v));
      OwnRow(c, me.dag, p, v.round - 1);
      DagBagRow(me.dag, v.round - 1, KeyOf(c, v));
      NotTwice(KeyBag(c, waiting), DagBag(me.dag), me.vmap.Keys, KeyOf(c, v));
    }
  }

  lemma NotTwice(a: multiset<Key>, b: multiset<Key>, keys: set<Key>, k: Key)
    requires a + b == multiset(keys) && a[k] >= 1
    ensures b[k] == 0
  {
    assert (a + b)[k] <= 1;
  }

  lemma OwnRow(c: Config, dag: seq<set<Key>>, me: nat, row: nat)
    requires OwnRows(c, me, dag) && row < |dag|
    ensures VertexKey(c, row + 1, me) in dag[row]
  {
  }

  /** A created vertex has a row at its creator. */
  lemma OwnRound(c: Config, s: State, k: Key)
    requires Inv(c, s) && k in s.created
    ensures s.created[k].pid in s.peers && 1 <= s.created[k].round <= |s.peers[s.created[k].pid].dag|
  {
    hide VertexKey, KeyOf;
    assert EntryOk(c, s.created, k);
    PeerView(c, s, s.created[k].pid);
  }

  lemma {:induction false} KeyBagMember(c: Config, vs: seq<Vertex>, i: nat)
    requires i < |vs|
    ensures KeyBag(c, vs)[KeyOf(c, vs[i])] >= 1
  {
    if i > 0 { KeyBagMember(c, vs[1..], i - 1); }
  }
}
