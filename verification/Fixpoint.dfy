/** Repeated buffer scans compute a least fixpoint (peer.cpp:205-237, mutual_history). */
module Fixpoint {
  import opened Vertices
  import opened Protocol
  import opened Invariants
  import opened System

  datatype Scanned = Scanned(dag: seq<set<Key>>, buffer: seq<Vertex>)

  /** The DAG and the kept vertices of a pass, without the repair traffic. */
  function Core(c: Config, round: nat, dag: seq<set<Key>>, kept: seq<Vertex>, todo: seq<Vertex>): (r: Scanned)
    requires AllIndexable(round, dag, todo)
    ensures |r.dag| == |dag|
    decreases |todo|
  {
    if todo == [] then Scanned(dag, kept)
    else
      var v := todo[0];
      if Acceptable(round, dag, v)
      then Core(c, round, dag[v.round - 1 := dag[v.round - 1] + {KeyOf(c, v)}], kept, todo[1..])
      else Core(c, round, dag, kept + [v], todo[1..])
  }

  /** Repairs and draws have no influence on what is accepted. */
  lemma {:induction false} CoreOfScan(c: Config, round: nat, p: Pass, todo: seq<Vertex>, coins: seq<bool>)
    requires AllIndexable(round, p.dag, todo) && |coins| == |todo|
    ensures ScanAll(c, round, p, todo, coins).dag == Core(c, round, p.dag, p.kept, todo).dag
    ensures ScanAll(c, round, p, todo, coins).kept == Core(c, round, p.dag, p.kept, todo).buffer
    decreases |todo|
  {
    if todo != [] {
      hide KeyOf;
      CoreOfScan(c, round, ScanOne(c, round, p, todo[0], coins[0]), todo[1..], coins[1..]);
    }
  }

  // ---- The least closed DAG ----

  /** Row i of the least DAG that contains dag and every buffered vertex it enables. */
  ghost function Level(c: Config, round: nat, dag: seq<set<Key>>, buffer: seq<Vertex>, i: nat): set<Key>
    requires i < |dag|
  {
    dag[i] + set v | v in buffer && v.round == i + 1 && round >= v.round
                     && (i == 0 || forall r :: r in v.refs ==> r in Level(c, round, dag, buffer, i - 1)) :: KeyOf(c, v)
  }

  ghost function Least(c: Config, round: nat, s: Scanned): seq<set<Key>> {
    seq(|s.dag|, i requires 0 <= i < |s.dag| => Level(c, round, s.dag, s.buffer, i))
  }

  /** The rows accept the vertex. */
  predicate Takes(round: nat, rows: seq<set<Key>>, v: Vertex) {
    Indexable(round, rows, v) && Acceptable(round, rows, v)
  }

  /** The rows contain every listed vertex they accept. */
  ghost predicate Closed(c: Config, round: nat, rows: seq<set<Key>>, vs: seq<Vertex>) {
    forall v :: v in vs && Takes(round, rows, v) ==> KeyOf(c, v) in rows[v.round - 1]
  }

  ghost predicate Below(a: seq<set<Key>>, b: seq<set<Key>>) {
    |a| == |b| && forall i :: 0 <= i < |a| ==> a[i] <= b[i]
  }

  lemma LeastIsClosed(c: Config, round: nat, s: Scanned)
    ensures Below(s.dag, Least(c, round, s)) && Closed(c, round, Least(c, round, s), s.buffer)
  {
    hide KeyOf;
  }

  lemma {:induction false} LevelIsLeast(c: Config, round: nat, s: Scanned, rows: seq<set<Key>>, i: nat)
    requires Below(s.dag, rows) && Closed(c, round, rows, s.buffer) && i < |s.dag|
    ensures Level(c, round, s.dag, s.buffer, i) <= rows[i]
  {
    hide KeyOf;
    if i > 0 { LevelIsLeast(c, round, s, rows, i - 1); }
    forall v | v in s.buffer && v.round == i + 1 && round >= v.round
               && (i == 0 || forall r :: r in v.refs ==> r in Level(c, round, s.dag, s.buffer, i - 1))
      ensures KeyOf(c, v) in rows[i]
    {
      assert Takes(round, rows, v);
    }
  }

  /** It is the least such DAG. */
  lemma LeastIsLeast(c: Config, round: nat, s: Scanned, rows: seq<set<Key>>)
    requires Below(s.dag, rows) && Closed(c, round, rows, s.buffer)
    ensures Below(Least(c, round, s), rows)
  {
    forall i | 0 <= i < |s.dag| ensures Least(c, round, s)[i] <= rows[i] { LevelIsLeast(c, round, s, rows, i); }
  }

  // ---- One pass ----

  /** The vertices a DAG does not accept, in their order. */
  function Blocked(round: nat, rows: seq<set<Key>>, vs: seq<Vertex>): seq<Vertex> {
    if vs == [] then []
    else (if Takes(round, rows, vs[0]) then [] else [vs[0]]) + Blocked(round, rows, vs[1..])
  }

  lemma {:induction false} BlockedAppend(round: nat, rows: seq<set<Key>>, a: seq<Vertex>, b: seq<Vertex>)
    ensures Blocked(round, rows, a + b) == Blocked(round, rows, a) + Blocked(round, rows, b)
  {
    if a == [] {
      assert a + b == b;
    } else {
      assert (a + b)[1..] == a[1..] + b;
      BlockedAppend(round, rows, a[1..], b);
    }
  }

  lemma {:induction false} BlockedAll(round: nat, rows: seq<set<Key>>, vs: seq<Vertex>)
    requires forall v :: v in vs ==> !Takes(round, rows, v)
    ensures Blocked(round, rows, vs) == vs
  {
    if vs != [] { BlockedAll(round, rows, vs[1..]); }
  }

  lemma BlockedOne(round: nat, rows: seq<set<Key>>, v: Vertex)
    ensures Blocked(round, rows, [v]) == if Takes(round, rows, v) then [] else [v]
  {
  }

  /** What a pass that started from `base` has established so far, inside closed rows `top`. */
  ghost predicate CoreOk(round: nat, top: seq<set<Key>>, base: seq<set<Key>>, dag: seq<set<Key>>, kept: seq<Vertex>) {
    Below(base, dag) && Below(dag, top) && forall v :: v in kept ==> !Takes(round, base, v)
  }

  lemma TakesUp(round: nat, low: seq<set<Key>>, high: seq<set<Key>>, v: Vertex)
    requires Below(low, high) && Takes(round, low, v)
    ensures Takes(round, high, v)
  {
  }

  function Accept(c: Config, dag: seq<set<Key>>, v: Vertex): seq<set<Key>>
    requires 1 <= v.round <= |dag|
  {
    dag[v.round - 1 := dag[v.round - 1] + {KeyOf(c, v)}]
  }

  lemma AcceptBelow(c: Config, round: nat, top: seq<set<Key>>, dag: seq<set<Key>>, vs: seq<Vertex>, v: Vertex)
    requires Below(dag, top) && Closed(c, round, top, vs) && v in vs && Takes(round, dag, v)
    ensures Below(dag, Accept(c, dag, v)) && Below(Accept(c, dag, v), top) && Takes(round, top, v)
  {
    hide KeyOf;
    TakesUp(round, dag, top, v);
  }

  /** A pass stays inside the closed rows and keeps only what its starting DAG does not accept. */
  lemma {:induction false} CorePass(c: Config, round: nat, top: seq<set<Key>>, base: seq<set<Key>>, dag: seq<set<Key>>, kept: seq<Vertex>, todo: seq<Vertex>)
    requires AllIndexable(round, dag, todo) && CoreOk(round, top, base, dag, kept) && Closed(c, round, top, todo)
    ensures var r := Core(c, round, dag, kept, todo); Below(dag, r.dag) && CoreOk(round, top, base, r.dag, r.buffer)
    decreases |todo|
  {
    hide KeyOf;
    if todo != [] {
      var v := todo[0];
      if Acceptable(round, dag, v) {
        AcceptBelow(c, round, top, dag, todo, v);
        CorePass(c, round, top, base, Accept(c, dag, v), kept, todo[1..]);
      } else {
        if Takes(round, base, v) { TakesUp(round, base, dag, v); }
        CorePass(c, round, top, base, dag, kept + [v], todo[1..]);
      }
    }
  }

  /** It removes nothing that the closed rows block. */
  lemma {:induction false} CoreBlocked(c: Config, round: nat, top: seq<set<Key>>, dag: seq<set<Key>>, kept: seq<Vertex>, todo: seq<Vertex>)
    requires AllIndexable(round, dag, todo) && Below(dag, top) && Closed(c, round, top, todo)
    ensures Blocked(round, top, Core(c, round, dag, kept, todo).buffer) == Blocked(round, top, kept + todo)
    decreases |todo|
  {
    hide KeyOf, Blocked, Takes;
    if todo == [] {
      assert kept + todo == kept;
    } else {
      var v, rest := todo[0], todo[1..];
      assert todo == [v] + rest;
      if Acceptable(round, dag, v) {
        assert Takes(round, dag, v) by { TakesBy(round, dag, v); }
        AcceptBelow(c, round, top, dag, todo, v);
        CoreBlocked(c, round, top, Accept(c, dag, v), kept, rest);
        BlockedOne(round, top, v);
        BlockedAppend(round, top, kept, rest);
        BlockedAppend(round, top, [v], rest);
        BlockedAppend(round, top, kept, [v] + rest);
      } else {
        CoreBlocked(c, round, top, dag, kept + [v], rest);
        assert kept + [v] + rest == kept + todo;
      }
    }
  }

  lemma TakesBy(round: nat, dag: seq<set<Key>>, v: Vertex)
    requires Indexable(round, dag, v) && Acceptable(round, dag, v)
    ensures Takes(round, dag, v)
  {
  }

  /** Every vertex of the pass is kept or its key is in its row; nothing else is kept. */
  lemma {:induction false} CoreKeeps(c: Config, round: nat, dag: seq<set<Key>>, kept: seq<Vertex>, todo: seq<Vertex>)
    requires AllIndexable(round, dag, todo)
    ensures var r := Core(c, round, dag, kept, todo);
            && Below(dag, r.dag)
            && (forall v :: v in r.buffer ==> v in kept || v in todo)
            && (forall v :: v in kept ==> v in r.buffer)
            && (forall v :: v in todo ==> v in r.buffer || Placed(c, r.dag, v))
    decreases |todo|
  {
    hide KeyOf;
    if todo != [] {
      var v := todo[0];
      if Acceptable(round, dag, v) {
        CoreKeeps(c, round, Accept(c, dag, v), kept, todo[1..]);
        assert Placed(c, Accept(c, dag, v), v);
      } else {
        CoreKeeps(c, round, dag, kept + [v], todo[1..]);
        assert v in kept + [v];
      }
    }
  }

  /** The vertex's key is in its row. */
  ghost predicate Placed(c: Config, dag: seq<set<Key>>, v: Vertex) {
    1 <= v.round <= |dag| && KeyOf(c, v) in dag[v.round - 1]
  }

  // ---- Repeated passes ----

  function OnePass(c: Config, round: nat, s: Scanned): (r: Scanned)
    requires AllIndexable(round, s.dag, s.buffer)
  {
    Core(c, round, s.dag, [], s.buffer)
  }

  /** After n passes: nothing outside the least DAG, nothing lost, and no vertex of the first n rounds left that the least
      DAG accepts. */
  ghost predicate PassesOk(c: Config, round: nat, s: Scanned, n: nat, r: Scanned) {
    && AllIndexable(round, r.dag, r.buffer)
    && Below(s.dag, r.dag) && Below(r.dag, Least(c, round, s))
    && (forall v :: v in r.buffer ==> v in s.buffer)
    && (forall v :: v in s.buffer ==> v in r.buffer || Placed(c, r.dag, v))
    && (forall v :: v in r.buffer && v.round <= n ==> !Takes(round, Least(c, round, s), v))
    && Blocked(round, Least(c, round, s), r.buffer) == Blocked(round, Least(c, round, s), s.buffer)
  }

  /** So the first n rows are final. */
  lemma RowsFinal(c: Config, round: nat, s: Scanned, n: nat, r: Scanned, i: nat)
    requires PassesOk(c, round, s, n, r) && i < n && i < |s.dag|
    ensures i < |r.dag| && r.dag[i] == Least(c, round, s)[i]
  {
    hide KeyOf, Blocked, AllIndexable, Level, Least, Takes;
    var top := Least(c, round, s);
    forall k | k in top[i] ensures k in r.dag[i] {
      if k !in s.dag[i] { var v := LevelSource(c, round, s, i, k); }
    }
  }

  /** A key the least DAG adds to a row comes from a buffered vertex it accepts. */
  lemma LevelSource(c: Config, round: nat, s: Scanned, i: nat, k: Key) returns (v: Vertex)
    requires i < |s.dag| && k in Least(c, round, s)[i] && k !in s.dag[i]
    ensures v in s.buffer && v.round == i + 1 && KeyOf(c, v) == k && Takes(round, Least(c, round, s), v)
  {
    hide KeyOf;
    v :| v in s.buffer && v.round == i + 1 && round >= v.round && KeyOf(c, v) == k
         && (i == 0 || forall r :: r in v.refs ==> r in Level(c, round, s.dag, s.buffer, i - 1));
    assert i > 0 ==> Least(c, round, s)[i - 1] == Level(c, round, s.dag, s.buffer, i - 1);
  }

  lemma StartOk(c: Config, round: nat, s: Scanned)
    requires AllIndexable(round, s.dag, s.buffer)
    ensures PassesOk(c, round, s, 0, s)
  {
    LeastIsClosed(c, round, s);
    hide KeyOf, Blocked, Level, Least;
  }

  lemma PassStep(c: Config, round: nat, s: Scanned, n: nat, r: Scanned)
    requires PassesOk(c, round, s, n, r)
    ensures PassesOk(c, round, s, n + 1, OnePass(c, round, r))
  {
    hide KeyOf, Blocked, Level, Least, Core, Takes, Placed, AllIndexable;
    var top := Least(c, round, s);
    var next := OnePass(c, round, r);
    LeastIsClosed(c, round, s);
    assert Closed(c, round, top, r.buffer);
    assert [] + r.buffer == r.buffer;
    CorePass(c, round, top, r.dag, r.dag, [], r.buffer);
    CoreBlocked(c, round, top, r.dag, [], r.buffer);
    CoreKeeps(c, round, r.dag, [], r.buffer);
    IndexableAlong(round, r.dag, r.buffer, next.dag, next.buffer);
    forall v | v in s.buffer && v !in next.buffer ensures Placed(c, next.dag, v) {
      if v !in r.buffer { PlacedUp(c, r.dag, next.dag, v); }
    }
    forall v | v in next.buffer && v.round <= n + 1 ensures !Takes(round, top, v) {
      StillBlocked(c, round, s, n, r, v);
    }
  }

  lemma PlacedUp(c: Config, low: seq<set<Key>>, high: seq<set<Key>>, v: Vertex)
    requires Placed(c, low, v) && Below(low, high)
    ensures Placed(c, high, v)
  {
    hide KeyOf;
  }

  lemma IndexableAlong(round: nat, dag: seq<set<Key>>, vs: seq<Vertex>, later: seq<set<Key>>, rest: seq<Vertex>)
    requires AllIndexable(round, dag, vs) && |dag| == |later| && forall v :: v in rest ==> v in vs
    ensures AllIndexable(round, later, rest)
  {
    forall i | 0 <= i < |rest| ensures Indexable(round, later, rest[i]) {
      assert rest[i] in vs;
    }
  }

  /** A vertex of one of the first n + 1 rounds that the DAG of n passes does not accept is not accepted by the least DAG. */
  lemma StillBlocked(c: Config, round: nat, s: Scanned, n: nat, r: Scanned, v: Vertex)
    requires PassesOk(c, round, s, n, r) && v in r.buffer && !Takes(round, r.dag, v) && v.round <= n + 1
    ensures !Takes(round, Least(c, round, s), v)
  {
    hide KeyOf, Blocked, Level, Least, Placed;
    var top := Least(c, round, s);
    assert Indexable(round, r.dag, v) && |r.dag| == |s.dag| == |top|;
    if Takes(round, top, v) && v.round > 1 {
      RowsFinal(c, round, s, n, r, v.round - 2);
    }
  }

  /** The results of successive passes, with nothing arriving in between. */
  ghost predicate Passes(c: Config, round: nat, rs: seq<Scanned>) {
    && rs != []
    && (forall i :: 0 <= i < |rs| ==> AllIndexable(round, rs[i].dag, rs[i].buffer))
    && forall i :: 0 <= i < |rs| - 1 ==> rs[i + 1] == OnePass(c, round, rs[i])
  }

  lemma {:induction false} AfterPasses(c: Config, round: nat, rs: seq<Scanned>, n: nat)
    requires Passes(c, round, rs) && n < |rs|
    ensures PassesOk(c, round, rs[0], n, rs[n])
  {
    hide PassesOk, OnePass;
    if n == 0 {
      StartOk(c, round, rs[0]);
    } else {
      AfterPasses(c, round, rs, n - 1);
      PassStep(c, round, rs[0], n - 1, rs[n - 1]);
      assert rs[n - 1 + 1] == OnePass(c, round, rs[n - 1]);
    }
  }

  /** Within `round` passes the scan has reached the least closed DAG; what stays in the buffer is exactly what that DAG
      does not accept, in the original order; and a further pass changes nothing. */
  lemma ScanReachesLeast(c: Config, round: nat, rs: seq<Scanned>, n: nat)
    requires Passes(c, round, rs) && n < |rs| && n >= round && |rs[0].dag| <= round
    ensures rs[n].dag == Least(c, round, rs[0])
    ensures rs[n].buffer == Blocked(round, Least(c, round, rs[0]), rs[0].buffer)
    ensures OnePass(c, round, rs[n]) == rs[n]
  {
    var s, r := rs[0], rs[n];
    hide KeyOf, Blocked, Core, Level, Placed;
    AfterPasses(c, round, rs, n);
    var top := Least(c, round, s);
    forall i | 0 <= i < |r.dag| ensures r.dag[i] == top[i] { RowsFinal(c, round, s, n, r, i); }
    assert r.dag == top;
    BlockedAll(round, top, r.buffer);
    CoreStuck(c, round, top, [], r.buffer);
    assert [] + r.buffer == r.buffer;
  }

  lemma {:induction false} CoreStuck(c: Config, round: nat, dag: seq<set<Key>>, kept: seq<Vertex>, todo: seq<Vertex>)
    requires AllIndexable(round, dag, todo) && forall v :: v in todo ==> !Takes(round, dag, v)
    ensures Core(c, round, dag, kept, todo) == Scanned(dag, kept + todo)
    decreases |todo|
  {
    if todo == [] {
      assert kept + todo == kept;
    } else {
      assert !Takes(round, dag, todo[0]);
      CoreStuck(c, round, dag, kept + [todo[0]], todo[1..]);
      assert kept + [todo[0]] + todo[1..] == kept + todo;
    }
  }

  // ---- Order independence ----

  lemma {:induction false} LevelIgnoresOrder(c: Config, round: nat, dag: seq<set<Key>>, a: seq<Vertex>, b: seq<Vertex>, i: nat)
    requires i < |dag| && forall v :: v in a <==> v in b
    ensures Level(c, round, dag, a, i) == Level(c, round, dag, b, i)
  {
    hide KeyOf;
    if i > 0 { LevelIgnoresOrder(c, round, dag, a, b, i - 1); }
  }

  lemma {:induction false} BlockedCount(round: nat, rows: seq<set<Key>>, vs: seq<Vertex>, v: Vertex)
    ensures multiset(Blocked(round, rows, vs))[v] == if Takes(round, rows, v) then 0 else multiset(vs)[v]
  {
    if vs != [] {
      BlockedCount(round, rows, vs[1..], v);
      assert vs == [vs[0]] + vs[1..];
      assert multiset(vs) == multiset{vs[0]} + multiset(vs[1..]);
    }
  }

  /** Two buffers holding the same vertices in different orders end with the same DAG and the same waiting vertices. */
  lemma OrderDoesNotMatter(c: Config, round: nat, rs: seq<Scanned>, ts: seq<Scanned>, n: nat, m: nat)
    requires Passes(c, round, rs) && Passes(c, round, ts) && round <= n < |rs| && round <= m < |ts|
    requires rs[0].dag == ts[0].dag && multiset(rs[0].buffer) == multiset(ts[0].buffer) && |rs[0].dag| <= round
    ensures rs[n].dag == ts[m].dag && multiset(rs[n].buffer) == multiset(ts[m].buffer)
  {
    var a, b, dag := rs[0].buffer, ts[0].buffer, rs[0].dag;
    hide Passes, OnePass, Core, Level, Blocked;
    ScanReachesLeast(c, round, rs, n);
    ScanReachesLeast(c, round, ts, m);
    assert forall v :: v in a <==> v in multiset(a);
    assert forall v :: v in b <==> v in multiset(b);
    forall i | 0 <= i < |dag| ensures Level(c, round, dag, a, i) == Level(c, round, dag, b, i) {
      LevelIgnoresOrder(c, round, dag, a, b, i);
    }
    var top := Least(c, round, rs[0]);
    assert top == Least(c, round, ts[0]);
    forall v ensures multiset(rs[n].buffer)[v] == multiset(ts[m].buffer)[v] {
      BlockedCount(round, top, a, v);
      BlockedCount(round, top, b, v);
    }
  }

  /** The wake-ups of a peer between two arrivals are such passes, whatever the random draws. */
  lemma WakeUpsArePasses(c: Config, ps: seq<Peer>, coins: seq<seq<bool>>)
    requires ps != [] && |coins| == |ps|
    requires forall i :: 0 <= i < |ps| ==> AllIndexable(ps[i].round, ps[i].dag, ps[i].buffer) && |coins[i]| == |ps[i].buffer|
    requires forall i :: 0 <= i < |ps| - 1 ==> ps[i + 1] == WakeUp(c, ps[i], coins[i])
    ensures Passes(c, ps[0].round, seq(|ps|, i requires 0 <= i < |ps| => Scanned(ps[i].dag, ps[i].buffer)))
  {
    hide ScanAll, Core;
    forall i | 0 <= i < |ps| ensures ps[i].round == ps[0].round { SameRound(c, ps, coins, i); }
    forall i | 0 <= i < |ps| - 1
      ensures Scanned(ps[i + 1].dag, ps[i + 1].buffer) == OnePass(c, ps[0].round, Scanned(ps[i].dag, ps[i].buffer))
    {
      CoreOfScan(c, ps[i].round, Pass(ps[i].dag, [], ps[i].leftover, []), ps[i].buffer, coins[i]);
    }
  }

  lemma {:induction false} SameRound(c: Config, ps: seq<Peer>, coins: seq<seq<bool>>, i: nat)
    requires i < |ps| && |coins| == |ps|
    requires forall i :: 0 <= i < |ps| ==> AllIndexable(ps[i].round, ps[i].dag, ps[i].buffer) && |coins[i]| == |ps[i].buffer|
    requires forall i :: 0 <= i < |ps| - 1 ==> ps[i + 1] == WakeUp(c, ps[i], coins[i])
    ensures ps[i].round == ps[0].round
  {
    hide ScanAll;
    if i > 0 {
      SameRound(c, ps, coins, i - 1);
      assert ps[i - 1 + 1] == WakeUp(c, ps[i - 1], coins[i - 1]);
    }
  }

  // ---- In a run ----

  /** One wake-up of a peer after another, with nothing arriving in between. */
  ghost predicate WakeUps(c: Config, ps: seq<Peer>, coins: seq<seq<bool>>) {
    && |ps| == |coins| + 1
    && forall i :: 0 <= i < |coins| ==>
         && AllIndexable(ps[i].round, ps[i].dag, ps[i].buffer) && |coins[i]| == |ps[i].buffer|
         && ps[i + 1] == WakeUp(c, ps[i], coins[i])
  }

  lemma {:induction false} WakeUpsKeep(c: Config, created: Ledger, me: nat, ps: seq<Peer>, coins: seq<seq<bool>>, i: nat)
    requires LedgerOk(c, created) && WakeUps(c, ps, coins) && PeerOk(c, created, me, ps[0]) && i < |ps|
    ensures PeerOk(c, created, me, ps[i]) && AllIndexable(ps[i].round, ps[i].dag, ps[i].buffer)
  {
    hide LedgerOk, PeerOk, WakeUp, AllIndexable;
    if i > 0 {
      WakeUpsKeep(c, created, me, ps, coins, i - 1);
      assert ps[i - 1 + 1] == WakeUp(c, ps[i - 1], coins[i - 1]);
      WakeUpKeeps(c, created, me, ps[i - 1], coins[i - 1]);
    }
    BufferIndexable(c, created, me, ps[i]);
  }

  /** From any reachable state, as many wake-ups as the peer's round take it to the least closed DAG, whatever the draws, and
      no wake-up ever indexes outside the DAG. */
  lemma ReachableScan(c: Config, s: State, p: nat, ps: seq<Peer>, coins: seq<seq<bool>>, n: nat)
    requires Deployment(c) && Reachable(c, s) && p in s.peers
    requires WakeUps(c, ps, coins) && ps[0] == s.peers[p] && s.peers[p].round <= n < |ps|
    ensures AllIndexable(ps[n].round, ps[n].dag, ps[n].buffer)
    ensures ps[n].dag == Least(c, s.peers[p].round, Scanned(s.peers[p].dag, s.peers[p].buffer))
    ensures ps[n].buffer == Blocked(s.peers[p].round, ps[n].dag, s.peers[p].buffer)
  {
    hide Deployment, Reachable, LedgerOk, PeerOk, WakeUp, AllIndexable, Least, Blocked, Passes;
    ReachableInv(c, s);
    forall i | 0 <= i < |ps| ensures AllIndexable(ps[i].round, ps[i].dag, ps[i].buffer) {
      WakeUpsKeep(c, s.created, p, ps, coins, i);
    }
    PeerShape(c, s.created, p, ps[0]);
    var draws := coins + [seq(|ps[|ps| - 1].buffer|, _ => false)];
    WakeUpsArePasses(c, ps, draws);
    var rs := seq(|ps|, i requires 0 <= i < |ps| => Scanned(ps[i].dag, ps[i].buffer));
    ScanReachesLeast(c, ps[0].round, rs, n);
  }

  lemma PeerShape(c: Config, created: Ledger, me: nat, p: Peer)
    requires PeerOk(c, created, me, p)
    ensures Shape(c, p)
  {
    hide KeyBag, DagBag, DagOk;
  }
}
