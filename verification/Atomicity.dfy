/** Why System may take the handoff and the scan as single steps: seen through the lists they share, every run of the two
    threads is made of these steps. */
module Atomicity {
  import opened Vertices
  import opened Protocol
  import H = Handoff

  /** What the items of Handoff stand for. */
  datatype Names = Names(vertex: nat -> Vertex, request: nat -> Request)

  function Named<T>(items: seq<nat>, f: nat -> T): seq<T> {
    seq(|items|, i requires 0 <= i < |items| => f(items[i]))
  }

  /** The peer as the threads leave it: between the insertion and the reset the server's lists count as handed over. */
  function Shown(s: H.State, p: Peer, names: Names): Peer {
    var l, copied := s.lists, H.Copied(s.control.server);
    p.(temp := if copied then [] else Named(l.vertices, names.vertex),
       tempRequests := if copied then [] else Named(l.queries, names.request),
       buffer := Named(l.buffer, names.vertex), requests := Named(l.requests, names.request))
  }

  lemma NamedAppend<T>(a: seq<nat>, b: seq<nat>, f: nat -> T)
    ensures Named(a + b, f) == Named(a, f) + Named(b, f) && Named([], f) == []
  {
  }

  /** The insertion under the mutex is the whole handoff. */
  lemma InsertIsHandOff(s: H.State, s': H.State, p: Peer, names: Names)
    requires H.Step(s, H.Server, s') && s.control.server == H.Insert
    ensures Shown(s', p, names) == HandOff(Shown(s, p, names))
  {
    NamedAppend(s.lists.buffer, s.lists.vertices, names.vertex);
    NamedAppend(s.lists.requests, s.lists.queries, names.request);
  }

  /** The pass that keeps what the scan keeps is the wake-up. */
  lemma PassIsWakeUp(c: Config, s: H.State, s': H.State, kept: seq<nat>, p: Peer, names: Names, coins: seq<bool>)
    requires H.Step(s, H.Pass(kept), s')
    requires var me := Shown(s, p, names);
             && AllIndexable(me.round, me.dag, me.buffer) && |coins| == |me.buffer|
             && Named(kept, names.vertex) == ScanBuffer(c, me, coins).kept
    ensures var me := Shown(s, p, names); var pass := ScanBuffer(c, me, coins);
            Shown(s', p.(dag := pass.dag, leftover := pass.leftover), names) == WakeUp(c, me, coins)
  {
    hide ScanBuffer;
    NamedAppend([], [], names.request);
  }

  /** An epoll round whose arrivals are the admitted vertices and the answerable requests is a series of deliveries. */
  lemma ArrivalsAreDeliveries(s: H.State, s': H.State, vs: seq<nat>, qs: seq<nat>, quiet: bool, p: Peer, later: Peer, names: Names)
    requires H.Step(s, H.Arrivals(vs, qs, quiet), s')
    requires var me := Shown(s, p, names);
             && later == me.(vmap := later.vmap, temp := later.temp, tempRequests := later.tempRequests)
             && later.temp == Named(vs, names.vertex) + me.temp && later.tempRequests == Named(qs, names.request) + me.tempRequests
    ensures Shown(s', p.(vmap := later.vmap), names) == later
  {
    NamedAppend(vs, s.lists.vertices, names.vertex);
    NamedAppend(qs, s.lists.queries, names.request);
  }

  /** Deliveries only put vertices or requests in front of the server's lists and extend the map. */
  lemma {:induction false} DeliveriesPrepend(c: Config, p: Peer, vertices: seq<Vertex>) returns (more: seq<Vertex>)
    ensures var later := AdmitAll(c, p, vertices);
            later == p.(vmap := later.vmap, temp := more + p.temp)
    decreases |vertices|
  {
    if vertices == [] {
      more := [];
    } else {
      hide KeyOf;
      var next := Admit(c, p, vertices[0]);
      var rest := DeliveriesPrepend(c, next, vertices[1..]);
      more := if next == p then rest else rest + [vertices[0]];
      assert next != p ==> rest + next.temp == more + p.temp;
    }
  }

  /** Everything else the threads do changes nothing that is shared. */
  lemma OtherEventsStutter(s: H.State, s': H.State, e: H.Event, p: Peer, names: Names)
    requires H.Step(s, e, s') && !e.Arrivals? && !e.Pass? && !(e.Server? && s.control.server == H.Insert)
    ensures Shown(s', p, names) == Shown(s, p, names)
  {
    NamedAppend([], [], names.vertex);
    NamedAppend([], [], names.request);
  }
}
