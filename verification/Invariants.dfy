/** The invariant of one peer relative to the ledger of all vertices ever created, and its preservation
    by everything a peer does. */
module Invariants {
  import opened FiniteSets
  import opened Vertices
  import opened Batching
  import opened Protocol

  // ---- The ledger ----

  /** Every vertex created so far, by key: a history of the run. */
  type Ledger = map<Key, Vertex>

  ghost predicate Genuine(c: Config, created: Ledger, v: Vertex) {
    KeyOf(c, v) in created && created[KeyOf(c, v)] == v
  }

  ghost predicate AllGenuine(c: Config, created: Ledger, vs: seq<Vertex>) {
    forall i :: 0 <= i < |vs| ==> Genuine(c, created, vs[i])
  }

  ghost predicate RequestsGenuine(c: Config, created: Ledger, rs: seq<Request>) {
    forall i :: 0 <= i < |rs| ==> Genuine(c, created, rs[i].vertex)
  }

  /** A created vertex: by a peer, in a round of the run, with a quorum of references into the round before. */
  ghost predicate EntryOk(c: Config, created: Ledger, k: Key)
    requires k in created
  {
    var v := created[k];
    && KeyOf(c, v) == k && v.pid in c.peers && 1 <= v.round <= c.lastRound
    && v.payload == NewPayload(v.round, v.pid)
    && if v.round == 1 then v.refs == []
       else Distinct(v.refs) && |v.refs| >= Quorum(c) && forall r :: r in v.refs ==> r in created && created[r].round == v.round - 1
  }

  ghost predicate LedgerOk(c: Config, created: Ledger) {
    forall k :: k in created ==> EntryOk(c, created, k)
  }

  ghost predicate Extends(created: Ledger, later: Ledger) {
    forall k :: k in created ==> k in later && later[k] == created[k]
  }

  // ---- One peer ----

  /** The map only holds created vertices. */
  ghost predicate Storage(created: Ledger, vmap: map<Key, Vertex>) {
    forall k :: k in vmap ==> k in created && vmap[k] == created[k]
  }

  /** Row i holds vertices of round i + 1 whose references are all in the row before. */
  ghost predicate RowEntryOk(vmap: map<Key, Vertex>, dag: seq<set<Key>>, i: int, k: Key)
    requires 0 <= i < |dag|
  {
    k in vmap && vmap[k].round == i + 1 && forall r :: r in vmap[k].refs ==> i > 0 && r in dag[i - 1]
  }

  ghost predicate DagOk(vmap: map<Key, Vertex>, dag: seq<set<Key>>) {
    forall i, k :: 0 <= i < |dag| && k in dag[i] ==> RowEntryOk(vmap, dag, i, k)
  }

  /** Listed vertices are the ones the map holds. */
  ghost predicate Waiting(c: Config, vmap: map<Key, Vertex>, vs: seq<Vertex>) {
    forall i :: 0 <= i < |vs| ==> KeyOf(c, vs[i]) in vmap && vmap[KeyOf(c, vs[i])] == vs[i]
  }

  ghost predicate RowsHaveQuorum(c: Config, round: nat, dag: seq<set<Key>>) {
    forall i :: 0 <= i < round - 1 && i < |dag| ==> |dag[i]| >= Quorum(c)
  }

  /** The peer's own vertex is in every row. */
  ghost predicate OwnRows(c: Config, me: nat, dag: seq<set<Key>>) {
    forall i :: 0 <= i < |dag| ==> VertexKey(c, i + 1, me) in dag[i]
  }

  ghost predicate Lifecycle(c: Config, p: Peer) {
    && p.stop <= c.lastRound
    && (p.stop < c.lastRound ==> p.round >= c.lastRound)
    && (p.status == Exited ==> p.round > p.stop)
  }

  function KeyBag(c: Config, vs: seq<Vertex>): multiset<Key> {
    if vs == [] then multiset{} else multiset{KeyOf(c, vs[0])} + KeyBag(c, vs[1..])
  }

  function DagBag(dag: seq<set<Key>>): multiset<Key> {
    if dag == [] then multiset{} else DagBag(dag[..|dag| - 1]) + multiset(dag[|dag| - 1])
  }

  /** Where a peer keeps vertices: the server's list, the shared buffer, the DAG. */
  function Places(c: Config, p: Peer): multiset<Key> {
    KeyBag(c, p.temp) + KeyBag(c, p.buffer) + DagBag(p.dag)
  }

  ghost predicate PeerOk(c: Config, created: Ledger, me: nat, p: Peer) {
    && Shape(c, p)
    && Storage(created, p.vmap)
    && DagOk(p.vmap, p.dag)
    && Waiting(c, p.vmap, p.temp) && Waiting(c, p.vmap, p.buffer)
    && RequestsGenuine(c, created, p.tempRequests) && RequestsGenuine(c, created, p.requests)
    && Places(c, p) == multiset(p.vmap.Keys)
    && RowsHaveQuorum(c, p.round, p.dag)
    && OwnRows(c, me, p.dag)
    && p.leftover <= p.vmap.Keys
    && Lifecycle(c, p)
  }

  // ---- Bags ----

  lemma {:induction false} KeyBagAppend(c: Config, a: seq<Vertex>, b: seq<Vertex>)
    ensures KeyBag(c, a + b) == KeyBag(c, a) + KeyBag(c, b)
  {
    if a == [] {
      assert a + b == b;
    } else {
      assert (a + b)[1..] == a[1..] + b;
      KeyBagAppend(c, a[1..], b);
    }
  }

  lemma KeyBagEmpty(c: Config)
    ensures KeyBag(c, []) == multiset{}
  {
  }

  lemma KeyBagCons(c: Config, v: Vertex, b: seq<Vertex>)
    ensures KeyBag(c, [v] + b) == multiset{KeyOf(c, v)} + KeyBag(c, b)
  {
    assert ([v] + b)[1..] == b;
  }

  lemma DagBagSnoc(dag: seq<set<Key>>, row: set<Key>)
    ensures DagBag(dag + [row]) == DagBag(dag) + multiset(row)
  {
    assert (dag + [row])[..|dag|] == dag;
  }

  lemma {:induction false} DagBagRow(dag: seq<set<Key>>, i: nat, k: Key)
    requires i < |dag| && k in dag[i]
    ensures DagBag(dag)[k] >= 1
  {
    if i < |dag| - 1 { DagBagRow(dag[..|dag| - 1], i, k); }
  }

  lemma {:induction false} DagBagAdd(dag: seq<set<Key>>, i: nat, k: Key)
    requires i < |dag| && k !in dag[i]
    ensures DagBag(dag[i := dag[i] + {k}]) == DagBag(dag) + multiset{k}
  {
    var front, last := dag[..|dag| - 1], dag[|dag| - 1];
    var dag' := dag[i := dag[i] + {k}];
    if i == |dag| - 1 {
      assert dag'[..|dag| - 1] == front;
      assert multiset(last + {k}) == multiset(last) + multiset{k};
    } else {
      assert dag'[..|dag| - 1] == front[i := front[i] + {k}];
      DagBagAdd(front, i, k);
    }
  }

  // ---- Monotonicity in the ledger ----

  lemma PeerOkLater(c: Config, created: Ledger, later: Ledger, me: nat, p: Peer)
    requires PeerOk(c, created, me, p) && Extends(created, later)
    ensures PeerOk(c, later, me, p)
  {
    hide DagOk, Places, KeyOf;
  }

  /** Buffered vertices can be indexed by the scan. */
  lemma BufferIndexable(c: Config, created: Ledger, me: nat, p: Peer)
    requires LedgerOk(c, created) && PeerOk(c, created, me, p)
    ensures AllIndexable(p.round, p.dag, p.buffer)
  {
    forall i | 0 <= i < |p.buffer| ensures Indexable(p.round, p.dag, p.buffer[i]) {
      assert EntryOk(c, created, KeyOf(c, p.buffer[i]));
    }
  }

  // ---- Advancing ----

  lemma AdvanceKeeps(c: Config, created: Ledger, me: nat, p: Peer, refs: seq<Key>)
    requires LedgerOk(c, created) && PeerOk(c, created, me, p) && me in c.peers
    requires CanAdvance(c, p) && p.round < c.lastRound && ListsPreviousRow(c, p, refs)
    requires VertexKey(c, p.round + 1, me) !in created
    ensures var v := NewVertex(p.round + 1, me, refs);
            var later := created[KeyOf(c, v) := v];
            LedgerOk(c, later) && Extends(created, later) && PeerOk(c, later, me, AdvanceRound(c, me, p, refs))
  {
    hide KeyBag, DagBag, Places, EntryOk, LedgerOk, WaveWork, NewPayload, VertexKey, DagOk, CanAdvance;
    NewEntry(c, created, me, p, refs);
    AdvancePlaces(c, me, p, refs);
    AdvanceDag(c, me, p, refs);
    AdvanceRows(c, me, p, refs);
  }

  lemma AdvanceDag(c: Config, me: nat, p: Peer, refs: seq<Key>)
    requires DagOk(p.vmap, p.dag)
    requires Shape(c, p) && CanAdvance(c, p) && p.round < c.lastRound && ListsPreviousRow(c, p, refs)
    requires VertexKey(c, p.round + 1, me) !in p.vmap
    ensures var p' := AdvanceRound(c, me, p, refs); DagOk(p'.vmap, p'.dag)
  {
    hide WaveWork, VertexKey, NewPayload;
    var p' := AdvanceRound(c, me, p, refs);
    forall i, j | 0 <= i < |p'.dag| && j in p'.dag[i] ensures RowEntryOk(p'.vmap, p'.dag, i, j) {
      if i < |p.dag| {
        assert RowEntryOk(p.vmap, p.dag, i, j);
      } else {
        assert i == p.round;
      }
    }
  }

  lemma AdvanceRows(c: Config, me: nat, p: Peer, refs: seq<Key>)
    requires RowsHaveQuorum(c, p.round, p.dag) && OwnRows(c, me, p.dag)
    requires Shape(c, p) && CanAdvance(c, p) && p.round < c.lastRound && ListsPreviousRow(c, p, refs)
    ensures var p' := AdvanceRound(c, me, p, refs); RowsHaveQuorum(c, p'.round, p'.dag) && OwnRows(c, me, p'.dag)
  {
    hide WaveWork, VertexKey, NewPayload;
  }

  /** The new vertex is a good ledger entry. */
  lemma NewEntry(c: Config, created: Ledger, me: nat, p: Peer, refs: seq<Key>)
    requires LedgerOk(c, created) && Storage(created, p.vmap) && DagOk(p.vmap, p.dag) && me in c.peers
    requires Shape(c, p) && CanAdvance(c, p) && p.round < c.lastRound && ListsPreviousRow(c, p, refs)
    requires VertexKey(c, p.round + 1, me) !in created
    ensures var v := NewVertex(p.round + 1, me, refs);
            var later := created[KeyOf(c, v) := v];
            LedgerOk(c, later) && Extends(created, later)
  {
    hide Places, VertexKey, NewPayload;
    var v := NewVertex(p.round + 1, me, refs);
    var k := KeyOf(c, v);
    var later := created[k := v];
    if p.round > 0 {
      EnumerationSize(refs, p.dag[p.round - 1]);
      forall r | r in refs ensures r in later && later[r].round == p.round {
        assert RowEntryOk(p.vmap, p.dag, p.round - 1, r);
      }
    }
    forall j | j in later ensures EntryOk(c, later, j) {
      if j != k { assert EntryOk(c, created, j); }
    }
  }

  lemma AdvancePlaces(c: Config, me: nat, p: Peer, refs: seq<Key>)
    requires Shape(c, p) && CanAdvance(c, p) && p.round < c.lastRound && ListsPreviousRow(c, p, refs)
    requires VertexKey(c, p.round + 1, me) !in p.vmap
    requires Places(c, p) == multiset(p.vmap.Keys)
    ensures var p' := AdvanceRound(c, me, p, refs); Places(c, p') == multiset(p'.vmap.Keys)
  {
    hide KeyBag, DagBag, WaveWork, VertexKey;
    var k, p' := VertexKey(c, p.round + 1, me), AdvanceRound(c, me, p, refs);
    DagBagSnoc(p.dag, {k});
    assert p'.vmap.Keys == p.vmap.Keys + {k};
    assert multiset(p.vmap.Keys + {k}) == multiset(p.vmap.Keys) + multiset{k};
  }

  lemma LastAdvanceKeeps(c: Config, created: Ledger, me: nat, p: Peer, refs: seq<Key>)
    requires PeerOk(c, created, me, p)
    requires CanAdvance(c, p) && p.round == c.lastRound
    ensures PeerOk(c, created, me, AdvanceRound(c, me, p, refs))
  {
    hide KeyBag, DagBag, WaveWork, KeyOf, VertexKey;
  }

  lemma TimeOutKeeps(c: Config, created: Ledger, me: nat, p: Peer)
    requires PeerOk(c, created, me, p) && !CanAdvance(c, p) && p.round <= c.lastRound
    requires p.status == Running
    ensures PeerOk(c, created, me, TimeOut(c, p))
  {
    hide KeyBag, DagBag, KeyOf, VertexKey;
  }

  // ---- The server ----

  lemma AdmitKeeps(c: Config, created: Ledger, me: nat, p: Peer, v: Vertex)
    requires PeerOk(c, created, me, p) && Genuine(c, created, v)
    ensures PeerOk(c, created, me, Admit(c, p, v))
  {
    hide KeyBag, DagBag, Places, VertexKey;
    var p' := Admit(c, p, v);
    if p' != p {
      AdmitPlaces(c, p, v);
      assert DagOk(p'.vmap, p'.dag) by {
        forall i, j | 0 <= i < |p'.dag| && j in p'.dag[i] ensures RowEntryOk(p'.vmap, p'.dag, i, j) {
          assert RowEntryOk(p.vmap, p.dag, i, j);
        }
      }
    }
  }

  lemma AdmitPlaces(c: Config, p: Peer, v: Vertex)
    requires Places(c, p) == multiset(p.vmap.Keys)
    ensures Places(c, Admit(c, p, v)) == multiset(Admit(c, p, v).vmap.Keys)
  {
    hide KeyBag, DagBag, KeyOf, VertexKey;
    var k, p' := KeyOf(c, v), Admit(c, p, v);
    KeyBagCons(c, v, p.temp);
    if p' != p {
      assert p'.vmap.Keys == p.vmap.Keys + {k};
      assert multiset(p.vmap.Keys + {k}) == multiset(p.vmap.Keys) + multiset{k};
    }
  }

  lemma {:induction false} AdmitAllKeeps(c: Config, created: Ledger, me: nat, p: Peer, vs: seq<Vertex>)
    requires PeerOk(c, created, me, p) && AllGenuine(c, created, vs)
    ensures PeerOk(c, created, me, AdmitAll(c, p, vs))
    decreases |vs|
  {
    if vs != [] {
      AdmitKeeps(c, created, me, p, vs[0]);
      AdmitAllKeeps(c, created, me, Admit(c, p, vs[0]), vs[1..]);
    }
  }

  lemma LookUpKeeps(c: Config, created: Ledger, me: nat, p: Peer, key: Key, asker: nat)
    requires LedgerOk(c, created) && PeerOk(c, created, me, p)
    ensures PeerOk(c, created, me, LookUp(p, key, asker))
  {
    if key in p.vmap { assert EntryOk(c, created, key); }
  }

  lemma HandOffKeeps(c: Config, created: Ledger, me: nat, p: Peer)
    requires PeerOk(c, created, me, p)
    ensures PeerOk(c, created, me, HandOff(p))
  {
    hide KeyBag, DagBag, KeyOf, VertexKey;
    KeyBagAppend(c, p.buffer, p.temp);
    KeyBagEmpty(c);
  }

  // ---- The scan ----

  /** A pass in progress over a fixed map: what it holds so far and what is still to do. */
  ghost predicate PassOk(c: Config, vmap: map<Key, Vertex>, dag0: seq<set<Key>>, elsewhere: multiset<Key>, p: Pass, todo: seq<Vertex>) {
    && |p.dag| == |dag0| && (forall i :: 0 <= i < |dag0| ==> dag0[i] <= p.dag[i])
    && DagOk(vmap, p.dag)
    && Waiting(c, vmap, p.kept) && Waiting(c, vmap, todo)
    && p.leftover <= vmap.Keys && (forall j :: 0 <= j < |p.repairs| ==> p.repairs[j].keys <= vmap.Keys)
    && elsewhere + KeyBag(c, p.kept) + KeyBag(c, todo) + DagBag(p.dag) == multiset(vmap.Keys)
  }

  lemma AcceptKeepsDag(c: Config, vmap: map<Key, Vertex>, dag: seq<set<Key>>, round: nat, v: Vertex)
    requires DagOk(vmap, dag) && KeyOf(c, v) in vmap && vmap[KeyOf(c, v)] == v
    requires Indexable(round, dag, v) && Acceptable(round, dag, v) && (v.round == 1 ==> v.refs == [])
    ensures DagOk(vmap, dag[v.round - 1 := dag[v.round - 1] + {KeyOf(c, v)}])
  {
    var i0, k := v.round - 1, KeyOf(c, v);
    var dag' := dag[i0 := dag[i0] + {k}];
    forall i, j | 0 <= i < |dag'| && j in dag'[i] ensures RowEntryOk(vmap, dag', i, j) {
      if j in dag[i] { assert RowEntryOk(vmap, dag, i, j); }
    }
  }

  lemma ScanOneKeeps(c: Config, vmap: map<Key, Vertex>, dag0: seq<set<Key>>, elsewhere: multiset<Key>, round: nat, p: Pass,
                     todo: seq<Vertex>, coin: bool)
    requires PassOk(c, vmap, dag0, elsewhere, p, todo)
    requires todo != [] && Indexable(round, p.dag, todo[0]) && (todo[0].round == 1 ==> todo[0].refs == [])
    ensures PassOk(c, vmap, dag0, elsewhere, ScanOne(c, round, p, todo[0], coin), todo[1..])
  {
    hide KeyBag, DagBag, VertexKey;
    var v := todo[0];
    assert todo == [v] + todo[1..];
    ScanOneBag(c, elsewhere, round, p, v, todo[1..], coin, vmap.Keys);
    hide KeyBag, DagBag;
    if Acceptable(round, p.dag, v) {
      AcceptKeepsDag(c, vmap, p.dag, round, v);
      hide KeyOf;
      if v.round > 1 {
        forall r | r in p.dag[v.round - 2] ensures r in vmap {
          assert RowEntryOk(vmap, p.dag, v.round - 2, r);
        }
      }
    }
  }

  /** One vertex moves from the list to the kept ones or to its row; no key is counted twice. */
  lemma ScanOneBag(c: Config, elsewhere: multiset<Key>, round: nat, p: Pass, v: Vertex, rest: seq<Vertex>, coin: bool, keys: set<Key>)
    requires Indexable(round, p.dag, v)
    requires elsewhere + KeyBag(c, p.kept) + KeyBag(c, [v] + rest) + DagBag(p.dag) == multiset(keys)
    ensures var p' := ScanOne(c, round, p, v, coin);
            elsewhere + KeyBag(c, p'.kept) + KeyBag(c, rest) + DagBag(p'.dag) == multiset(keys)
  {
    hide KeyBag, DagBag, VertexKey, KeyOf;
    var k := KeyOf(c, v);
    KeyBagCons(c, v, rest);
    if Acceptable(round, p.dag, v) {
      if k in p.dag[v.round - 1] { DagBagRow(p.dag, v.round - 1, k); }
      assert multiset(keys)[k] <= 1;
      DagBagAdd(p.dag, v.round - 1, k);
    } else {
      KeyBagAppend(c, p.kept, [v]);
      KeyBagCons(c, v, []);
      KeyBagEmpty(c);
      assert [v] + [] == [v];
    }
  }

  lemma {:induction false} ScanAllKeeps(c: Config, vmap: map<Key, Vertex>, dag0: seq<set<Key>>, elsewhere: multiset<Key>, round: nat,
                                        p: Pass, todo: seq<Vertex>, coins: seq<bool>)
    requires PassOk(c, vmap, dag0, elsewhere, p, todo)
    requires AllIndexable(round, p.dag, todo) && |coins| == |todo|
    requires forall i :: 0 <= i < |todo| && todo[i].round == 1 ==> todo[i].refs == []
    ensures PassOk(c, vmap, dag0, elsewhere, ScanAll(c, round, p, todo, coins), [])
    decreases |todo|
  {
    if todo != [] {
      ScanOneKeeps(c, vmap, dag0, elsewhere, round, p, todo, coins[0]);
      hide PassOk;
      ScanAllKeeps(c, vmap, dag0, elsewhere, round, ScanOne(c, round, p, todo[0], coins[0]), todo[1..], coins[1..]);
    }
  }

  lemma WakeUpKeeps(c: Config, created: Ledger, me: nat, p: Peer, coins: seq<bool>)
    requires LedgerOk(c, created) && PeerOk(c, created, me, p)
    requires AllIndexable(p.round, p.dag, p.buffer) && |coins| == |p.buffer|
    ensures PeerOk(c, created, me, WakeUp(c, p, coins))
    ensures forall j :: 0 <= j < |ScanBuffer(c, p, coins).repairs| ==> ScanBuffer(c, p, coins).repairs[j].keys <= p.vmap.Keys
    ensures forall i :: 0 <= i < |p.dag| ==> p.dag[i] <= WakeUp(c, p, coins).dag[i]
  {
    hide KeyBag, DagBag, VertexKey, NewPayload, ScanAll;
    KeyBagEmpty(c);
    var start := Pass(p.dag, [], p.leftover, []);
    forall i | 0 <= i < |p.buffer| && p.buffer[i].round == 1 ensures p.buffer[i].refs == [] {
      assert EntryOk(c, created, KeyOf(c, p.buffer[i]));
    }
    assert PassOk(c, p.vmap, p.dag, KeyBag(c, p.temp), start, p.buffer);
    ScanAllKeeps(c, p.vmap, p.dag, KeyBag(c, p.temp), p.round, start, p.buffer, coins);
    var pass := ScanBuffer(c, p, coins);
    hide DagOk, Waiting, KeyOf;
    forall i | 0 <= i < p.round - 1 && i < |p.dag| ensures |pass.dag[i]| >= Quorum(c) {
      SubsetSize(p.dag[i], pass.dag[i]);
    }
  }
}
