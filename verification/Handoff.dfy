/** The handoff between the server thread and the scanner thread of a peer, as interleaved atomic steps
    (networking.cpp:218-248, peer.cpp:186-193, 239-245). The condition variable is waited on without a predicate, so the
    scanner may also wake up spuriously ([thread.condition.condvar] of the C++ standard). */
module Handoff {

  /** Where the server is in its loop. */
  datatype ServerPc = Check | Gather | BusyWait | Clear | Lock | Insert | Unlock | Notify | Reset | Stopped

  /** Where the scanner is: its round logic, the wait, the scan, and the way out. */
  datatype ScannerPc = Work | SetReady | Wait | Asleep | Woken | Scan | Decide | Release
                     | Down | ReadyAgain | LastRelease | Gone

  datatype Holder = Free | ByServer | ByScanner

  /** `ready` is scan_buffer_thread_ready; `holder` is who holds the mutex. */
  datatype Control = Control(server: ServerPc, scanner: ScannerPc, holder: Holder, ready: bool, isUp: bool)

  /** `vertices` and `queries` are the server's temporary lists, `buffer` and `requests` the shared ones. `arrived` and
      `taken` record every vertex the server admitted and the scanner accepted; `asked` and `answered` the same for requests. */
  datatype Lists = Lists(vertices: seq<nat>, queries: seq<nat>, buffer: seq<nat>, requests: seq<nat>,
                         arrived: multiset<nat>, taken: multiset<nat>, asked: multiset<nat>, answered: multiset<nat>)

  datatype State = State(control: Control, lists: Lists)

  ghost predicate Init(s: State) {
    s == State(Control(Check, Work, Free, false, true), Lists([], [], [], [], multiset{}, multiset{}, multiset{}, multiset{}))
  }

  /** A move of the server; an epoll round of the server with its arrivals (`quiet`: no event was ready); a move of the
      scanner (`leave`: whether it takes the exit branch); its pass under the mutex, which keeps some vertices; a spurious wake-up. */
  datatype Event = Server | Arrivals(vs: seq<nat>, qs: seq<nat>, quiet: bool) | Scanner(leave: bool) | Pass(kept: seq<nat>) | Spurious

  // ---- Control ----

  /** Leaving the busy wait needs the flag, taking the mutex needs it free. */
  predicate ServerEnabled(c: Control) {
    match c.server
    case Gather => false
    case BusyWait => c.ready
    case Lock => c.holder == Free
    case Stopped => false
    case _ => true
  }

  function ServerMove(c: Control): Control {
    match c.server
    case Check => c.(server := if c.isUp then Gather else Stopped)
    case BusyWait => c.(server := Clear)
    case Clear => c.(server := Lock, ready := false)
    case Lock => c.(server := Insert, holder := ByServer)
    case Insert => c.(server := Unlock)
    case Unlock => c.(server := Notify, holder := Free)
    case Notify => c.(server := Reset, scanner := if c.scanner == Asleep then Woken else c.scanner)
    case Reset => c.(server := Check)
    case _ => c
  }

  predicate ScannerEnabled(c: Control) {
    match c.scanner
    case Work => c.holder == Free
    case Woken => c.holder == Free
    case Asleep => false
    case Scan => false
    case Gone => false
    case _ => true
  }

  function ScannerMove(c: Control, leave: bool): Control {
    match c.scanner
    case Work => c.(scanner := SetReady, holder := ByScanner)
    case SetReady => c.(scanner := Wait, ready := true)
    case Wait => c.(scanner := Asleep, holder := Free)
    case Woken => c.(scanner := Scan, holder := ByScanner)
    case Decide => c.(scanner := if leave then Down else Release)
    case Release => c.(scanner := Work, holder := Free)
    case Down => c.(scanner := ReadyAgain, isUp := false)
    case ReadyAgain => c.(scanner := LastRelease, ready := true)
    case LastRelease => c.(scanner := Gone, holder := Free)
    case _ => c
  }

  predicate Enabled(s: State, e: Event) {
    match e
    case Server => ServerEnabled(s.control)
    case Arrivals(vs, qs, quiet) => s.control.server == Gather && (quiet ==> vs == [] && qs == [])
    case Scanner(_) => ScannerEnabled(s.control)
    case Pass(kept) => s.control.scanner == Scan && multiset(kept) <= multiset(s.lists.buffer)
    case Spurious => s.control.scanner == Asleep
  }

  /** The server goes on to hand over when it has something, or when the network was quiet (networking.cpp:218). */
  function ControlAfter(s: State, e: Event): Control {
    match e
    case Server => ServerMove(s.control)
    case Arrivals(vs, qs, quiet) =>
      s.control.(server := if vs + s.lists.vertices != [] || qs + s.lists.queries != [] || quiet then BusyWait else Check)
    case Scanner(leave) => ScannerMove(s.control, leave)
    case Pass(_) => s.control.(scanner := Decide)
    case Spurious => s.control.(scanner := Woken)
  }

  // ---- Data ----

  /** Arrivals go to the front of the temporary lists, these to the end of the shared ones; the pass empties the requests. */
  function ListsAfter(s: State, e: Event): Lists {
    var l := s.lists;
    match e
    case Server =>
      if s.control.server == Insert then l.(buffer := l.buffer + l.vertices, requests := l.requests + l.queries)
      else if s.control.server == Reset then l.(vertices := [], queries := [])
      else l
    case Arrivals(vs, qs, _) =>
      l.(vertices := vs + l.vertices, queries := qs + l.queries, arrived := l.arrived + multiset(vs), asked := l.asked + multiset(qs))
    case Pass(kept) =>
      l.(buffer := kept, requests := [],
         taken := l.taken + (multiset(l.buffer) - multiset(kept)), answered := l.answered + multiset(l.requests))
    case _ => l
  }

  predicate Step(s: State, e: Event, s': State) {
    Enabled(s, e) && s' == State(ControlAfter(s, e), ListsAfter(s, e))
  }

  ghost predicate Run(tr: seq<State>, es: seq<Event>) {
    |tr| == |es| + 1 && Init(tr[0]) && forall i :: 0 <= i < |es| ==> Step(tr[i], es[i], tr[i + 1])
  }

  predicate ByTheServer(e: Event) {
    e.Server? || e.Arrivals?
  }

  // ---- The invariant ----

  predicate ServerHolds(pc: ServerPc) {
    pc == Insert || pc == Unlock
  }

  predicate ScannerHolds(pc: ScannerPc) {
    pc == SetReady || pc == Wait || pc == Scan || pc == Decide || pc == Release || pc == Down || pc == ReadyAgain || pc == LastRelease
  }

  /** The server has cleared the flag and has not yet notified. */
  predicate OnItsWay(pc: ServerPc) {
    pc == Lock || pc == Insert || pc == Unlock || pc == Notify
  }

  /** The temporary lists are stale copies between the insertion and the reset. */
  predicate Copied(pc: ServerPc) {
    pc == Unlock || pc == Notify || pc == Reset
  }

  predicate Leaving(pc: ScannerPc) {
    pc == ReadyAgain || pc == LastRelease || pc == Gone
  }

  predicate ControlOk(c: Control) {
    // mutual exclusion
    && (c.holder == ByServer <==> ServerHolds(c.server)) && (c.holder == ByScanner <==> ScannerHolds(c.scanner))
    // no lost wake-up
    && (c.scanner == Asleep && !c.ready ==> OnItsWay(c.server))
    && (c.scanner == Wait && !c.ready ==> c.server == Lock)
    // shutting down
    && (!c.isUp <==> Leaving(c.scanner)) && (c.server == Stopped ==> !c.isUp)
    && ((c.scanner == LastRelease || c.scanner == Gone) && (c.server == Gather || c.server == BusyWait) ==> c.ready)
  }

  /** What came in is pending (unless the pending list is a stale copy), shared, or out; each item once. */
  ghost predicate Balance(copied: bool, pending: seq<nat>, shared: seq<nat>, incoming: multiset<nat>, out: multiset<nat>) {
    incoming == (if copied then multiset{} else multiset(pending)) + multiset(shared) + out
  }

  ghost predicate Conserved(pc: ServerPc, l: Lists) {
    Balance(Copied(pc), l.vertices, l.buffer, l.arrived, l.taken) && Balance(Copied(pc), l.queries, l.requests, l.asked, l.answered)
  }

  lemma ControlKept(s: State, e: Event)
    requires ControlOk(s.control) && Enabled(s, e)
    ensures ControlOk(ControlAfter(s, e))
  {
    hide ServerMove, ScannerMove;
    match e {
      case Server => ServerControl(s.control);
      case Scanner(leave) => ScannerControl(s.control, leave);
      case _ =>
    }
  }

  lemma ServerControl(c: Control)
    requires ControlOk(c) && ServerEnabled(c)
    ensures ControlOk(ServerMove(c))
  {
  }

  lemma ScannerControl(c: Control, leave: bool)
    requires ControlOk(c) && ScannerEnabled(c)
    ensures ControlOk(ScannerMove(c, leave))
  {
  }

  lemma BalanceMoves(pending: seq<nat>, shared: seq<nat>, incoming: multiset<nat>, out: multiset<nat>)
    ensures Balance(false, pending, shared, incoming, out) ==> Balance(true, pending, shared + pending, incoming, out)
    ensures Balance(true, pending, shared, incoming, out) ==> Balance(false, [], shared, incoming, out)
    ensures Balance(false, pending, shared, incoming, out) ==> Balance(false, pending, [], incoming, out + multiset(shared))
    ensures Balance(true, pending, shared, incoming, out) ==> Balance(true, pending, [], incoming, out + multiset(shared))
  {
    assert multiset(shared + pending) == multiset(shared) + multiset(pending);
  }

  lemma BalanceArrives(more: seq<nat>, pending: seq<nat>, shared: seq<nat>, incoming: multiset<nat>, out: multiset<nat>)
    requires Balance(false, pending, shared, incoming, out)
    ensures Balance(false, more + pending, shared, incoming + multiset(more), out)
  {
    assert multiset(more + pending) == multiset(more) + multiset(pending);
  }

  lemma BalanceTakes(kept: seq<nat>, copied: bool, pending: seq<nat>, shared: seq<nat>, incoming: multiset<nat>, out: multiset<nat>)
    requires Balance(copied, pending, shared, incoming, out) && multiset(kept) <= multiset(shared)
    ensures Balance(copied, pending, kept, incoming, out + (multiset(shared) - multiset(kept)))
  {
    assert multiset(shared) == multiset(kept) + (multiset(shared) - multiset(kept));
  }

  lemma ServerConserves(s: State)
    requires Conserved(s.control.server, s.lists) && Enabled(s, Server)
    ensures Conserved(ServerMove(s.control).server, ListsAfter(s, Server))
  {
    hide Balance;
    var l, pc, next := s.lists, s.control.server, ServerMove(s.control).server;
    BalanceMoves(l.vertices, l.buffer, l.arrived, l.taken);
    BalanceMoves(l.queries, l.requests, l.asked, l.answered);
    assert pc != Insert && pc != Reset ==> Copied(pc) == Copied(next) && ListsAfter(s, Server) == l;
    assert pc == Insert ==> !Copied(pc) && Copied(next);
    assert pc == Reset ==> Copied(pc) && !Copied(next);
    hide ServerMove, Copied;
  }

  lemma PassConserves(pc: ServerPc, s: State, kept: seq<nat>)
    requires Conserved(pc, s.lists) && multiset(kept) <= multiset(s.lists.buffer)
    ensures Conserved(pc, ListsAfter(s, Pass(kept)))
  {
    hide Balance;
    var l := s.lists;
    BalanceTakes(kept, Copied(pc), l.vertices, l.buffer, l.arrived, l.taken);
    BalanceMoves(l.queries, l.requests, l.asked, l.answered);
  }

  lemma ConservedKept(s: State, e: Event)
    requires Conserved(s.control.server, s.lists) && Enabled(s, e)
    ensures Conserved(ControlAfter(s, e).server, ListsAfter(s, e))
  {
    hide Balance, ServerMove;
    var l := s.lists;
    match e {
      case Server => ServerConserves(s);
      case Arrivals(vs, qs, quiet) =>
        BalanceArrives(vs, l.vertices, l.buffer, l.arrived, l.taken);
        BalanceArrives(qs, l.queries, l.requests, l.asked, l.answered);
      case Scanner(leave) => assert ScannerMove(s.control, leave).server == s.control.server;
      case Pass(kept) => PassConserves(s.control.server, s, kept);
      case Spurious =>
    }
  }

  lemma {:induction false} InvAlways(tr: seq<State>, es: seq<Event>, n: nat)
    requires Run(tr, es) && n < |tr|
    ensures ControlOk(tr[n].control) && Conserved(tr[n].control.server, tr[n].lists)
  {
    if n > 0 {
      hide Enabled, ControlAfter, ListsAfter, Conserved, ControlOk;
      InvAlways(tr, es, n - 1);
      assert Step(tr[n - 1], es[n - 1], tr[n - 1 + 1]);
      ControlKept(tr[n - 1], es[n - 1]);
      ConservedKept(tr[n - 1], es[n - 1]);
    }
  }

  // ---- Safety ----

  /** Never is the scanner asleep with the flag clear unless the server is still on its way to notify it; and once the
      scanner has left its loop the server is not stuck in its busy wait. */
  lemma NoLostWakeUp(tr: seq<State>, es: seq<Event>, n: nat)
    requires Run(tr, es) && n < |tr|
    ensures var c := tr[n].control;
            && (c.scanner == Asleep && !c.ready ==> OnItsWay(c.server))
            && (c.scanner == Gone && c.server == BusyWait ==> c.ready)
  {
    InvAlways(tr, es, n);
  }

  /** The shared lists change only in a step of the thread that holds the mutex, and never do both hold it. */
  lemma SharedListsGuarded(tr: seq<State>, es: seq<Event>, n: nat)
    requires Run(tr, es) && n < |es|
    requires tr[n + 1].lists.buffer != tr[n].lists.buffer || tr[n + 1].lists.requests != tr[n].lists.requests
    ensures var c := tr[n].control;
            if ByTheServer(es[n]) then c.holder == ByServer && !ScannerHolds(c.scanner)
            else c.holder == ByScanner && !ServerHolds(c.server)
  {
    InvAlways(tr, es, n);
    assert Step(tr[n], es[n], tr[n + 1]);
  }

  /** Every vertex the server admitted is in its list, in the buffer or accepted, exactly once; and so for requests. */
  lemma HandoffConserves(tr: seq<State>, es: seq<Event>, n: nat)
    requires Run(tr, es) && n < |tr| && tr[n].control.server == Check
    ensures tr[n].lists.arrived == multiset(tr[n].lists.vertices) + multiset(tr[n].lists.buffer) + tr[n].lists.taken
    ensures tr[n].lists.asked == multiset(tr[n].lists.queries) + multiset(tr[n].lists.requests) + tr[n].lists.answered
  {
    InvAlways(tr, es, n);
  }

  /** The event clears the flag. */
  predicate Clears(s: State, e: Event) {
    e == Server && s.control.server == Clear
  }

  /** The event is the scanner's setting of the flag. */
  predicate Sets(s: State, e: Event) {
    e.Scanner? && (s.control.scanner == SetReady || s.control.scanner == ReadyAgain)
  }

  lemma {:induction false} ClearedStays(tr: seq<State>, es: seq<Event>, i: nat, m: nat)
    requires Run(tr, es) && i < m <= |es| && Clears(tr[i], es[i])
    requires forall t :: i < t < m ==> !Sets(tr[t], es[t])
    ensures !tr[m].control.ready && tr[m].control.server != Clear
    decreases m
  {
    hide ListsAfter, Init;
    assert Step(tr[m - 1], es[m - 1], tr[m - 1 + 1]);
    if m - 1 > i { ClearedStays(tr, es, i, m - 1); }
  }

  /** The flag is a token: the server goes into its critical section once for each time the scanner has made itself ready. */
  lemma OneHandoffPerReadiness(tr: seq<State>, es: seq<Event>, i: nat, j: nat)
    requires Run(tr, es) && i < j < |es| && Clears(tr[i], es[i]) && Clears(tr[j], es[j])
    ensures exists t :: i < t < j && Sets(tr[t], es[t])
  {
    if forall t :: i < t < j ==> !Sets(tr[t], es[t]) { ClearedStays(tr, es, i, j); }
  }

  // ---- Progress ----

  /** The scanner has a move of its own: a step of its program or its pass over the buffer. */
  predicate ScannerCanMove(s: State) {
    Enabled(s, Scanner(false)) || Enabled(s, Pass([]))
  }

  lemma NothingKept(s: State)
    ensures multiset([]) <= multiset(s.lists.buffer)
  {
  }

  /** No deadlock: only sleep and the end stop the scanner for good; where the mutex stops it, the server holds it and can move.
      Likewise a server that waits for the mutex waits for a scanner that can move. */
  lemma NobodyIsStuck(tr: seq<State>, es: seq<Event>, n: nat)
    requires Run(tr, es) && n < |tr|
    ensures var c := tr[n].control;
            && (c.scanner == Asleep || c.scanner == Gone || ScannerCanMove(tr[n]) || (c.holder == ByServer && Enabled(tr[n], Server)))
            && (c.server == Lock ==> Enabled(tr[n], Server) || (c.holder == ByScanner && ScannerCanMove(tr[n])))
  {
    InvAlways(tr, es, n);
    NothingKept(tr[n]);
    hide Run, Conserved;
  }

  /** Scanner moves left before the flag is set. */
  function StepsToReady(pc: ScannerPc): nat {
    match pc
    case SetReady => 1 case Work => 2 case Release => 3 case ReadyAgain => 1 case Down => 2 case Decide => 4 case Scan => 5
    case Woken => 6 case Asleep => 7 case Wait => 8 case LastRelease => 9 case Gone => 9
  }

  /** The busy wait ends: while the flag is clear the scanner is neither asleep nor gone, it can move, and each of its moves
      brings the setting of the flag nearer or is that setting. */
  lemma BusyWaitEnds(tr: seq<State>, es: seq<Event>, n: nat, e: Event)
    requires Run(tr, es) && n < |tr| && tr[n].control.server == BusyWait && !tr[n].control.ready
    ensures ScannerCanMove(tr[n]) && StepsToReady(tr[n].control.scanner) <= 6
    ensures Enabled(tr[n], e) && !ByTheServer(e) ==>
              ControlAfter(tr[n], e).ready || StepsToReady(ControlAfter(tr[n], e).scanner) < StepsToReady(tr[n].control.scanner)
  {
    InvAlways(tr, es, n);
    NothingKept(tr[n]);
    hide Run, Conserved;
  }

  /** Server steps left before the next notification. */
  function StepsToNotify(pc: ServerPc): nat {
    match pc
    case Notify => 1 case Unlock => 2 case Insert => 3 case Lock => 4 case Clear => 5
    case BusyWait => 6 case Gather => 7 case Check => 8 case Reset => 9 case Stopped => 10
  }

  /** An epoll round that found messages and nothing to hand over. */
  predicate Idle(s: State, e: Event) {
    e.Arrivals? && e.vs == [] && e.qs == [] && !e.quiet && s.lists.vertices == [] && s.lists.queries == []
  }

  /** Between two handoffs the server rests; from the busy wait on it is committed to notify. */
  predicate Resting(pc: ServerPc) {
    pc == Reset || pc == Check || pc == Gather
  }

  predicate Committed(pc: ServerPc) {
    !Resting(pc) && pc != Stopped
  }

  /** A spurious wake-up, or an epoll round that brought something to hand over or was quiet. */
  predicate Rouses(s: State, e: Event) {
    e.Spurious? || (e.Arrivals? && !Idle(s, e))
  }

  predicate Sleeps(s: State) {
    s.control.scanner == Asleep
  }

  predicate Wakes(s: State) {
    s.control.scanner == Woken
  }

  /** While the scanner sleeps the server can always move. */
  lemma SleeperIsServed(tr: seq<State>, es: seq<Event>, n: nat)
    requires Run(tr, es) && n < |tr| && Sleeps(tr[n])
    ensures Enabled(tr[n], Server) || Enabled(tr[n], Arrivals([], [], true))
    ensures Resting(tr[n].control.server) || Committed(tr[n].control.server)
  {
    InvAlways(tr, es, n);
    hide Run, Conserved;
  }

  /** What one event does to a sleeping scanner: a committed server comes nearer to its notification or delivers it; a
      resting one stays so, with the scanner asleep, unless the event rouses. */
  lemma SleepStep(tr: seq<State>, es: seq<Event>, n: nat)
    requires Run(tr, es) && n < |es| && Sleeps(tr[n])
    ensures Wakes(tr[n + 1]) || Sleeps(tr[n + 1])
    ensures Committed(tr[n].control.server) && !Wakes(tr[n + 1]) ==>
              Committed(tr[n + 1].control.server) && StepsToNotify(tr[n + 1].control.server) < StepsToNotify(tr[n].control.server)
    ensures Resting(tr[n].control.server) && Rouses(tr[n], es[n]) ==> Wakes(tr[n + 1]) || Committed(tr[n + 1].control.server)
    ensures Resting(tr[n].control.server) && !Rouses(tr[n], es[n]) ==> Sleeps(tr[n + 1]) && Resting(tr[n + 1].control.server)
  {
    InvAlways(tr, es, n);
    assert Step(tr[n], es[n], tr[n + 1]);
    hide Run, Conserved, ListsAfter;
  }

  /** As long as nothing rouses it, the scanner sleeps on beside a resting server. */
  lemma {:induction false} SleepsOn(tr: seq<State>, es: seq<Event>, n: nat, m: nat)
    requires Run(tr, es) && n <= m <= |es| && Sleeps(tr[n]) && Resting(tr[n].control.server)
    requires forall j :: n <= j < m ==> !Rouses(tr[j], es[j])
    ensures forall i :: n <= i <= m ==> Sleeps(tr[i]) && Resting(tr[i].control.server)
    decreases m - n
  {
    hide Run, Sleeps, Resting, Rouses;
    if n < m {
      SleepStep(tr, es, n);
      SleepsOn(tr, es, n + 1, m);
    }
  }

  /** A committed server notifies within six events. */
  lemma {:induction false} NotifiedSoon(tr: seq<State>, es: seq<Event>, n: nat)
    requires Run(tr, es) && n < |tr| && Sleeps(tr[n]) && Committed(tr[n].control.server)
    requires n + StepsToNotify(tr[n].control.server) <= |es|
    ensures StepsToNotify(tr[n].control.server) <= 6
    ensures exists i :: n < i <= n + StepsToNotify(tr[n].control.server) && Wakes(tr[i])
    decreases |es| - n
  {
    hide Step, Init, Sleeps, Wakes, Rouses;
    SleepStep(tr, es, n);
    if !Wakes(tr[n + 1]) { NotifiedSoon(tr, es, n + 1); }
  }

  /** An event that rouses wakes a sleeping scanner within seven events, whatever happens besides. */
  lemma {:induction false} SleeperIsWoken(tr: seq<State>, es: seq<Event>, n: nat, j: nat)
    requires Run(tr, es) && n <= j && j + 7 <= |es| && Sleeps(tr[n]) && Rouses(tr[j], es[j])
    ensures exists i :: n < i <= j + 7 && Wakes(tr[i])
    decreases j - n
  {
    hide Step, Init, Sleeps, Wakes, Rouses, Resting, Committed;
    SleeperIsServed(tr, es, n);
    SleepStep(tr, es, n);
    if !Wakes(tr[n + 1]) {
      if n < j {
        SleeperIsWoken(tr, es, n + 1, j);
      } else {
        SixAtMost(tr[n + 1].control.server);
        SixAtMost(tr[n].control.server);
        NotifiedSoon(tr, es, n + 1);
      }
    }
  }

  lemma SixAtMost(pc: ServerPc)
    ensures Committed(pc) ==> StepsToNotify(pc) <= 6
  {
  }

  // ---- Runs without end ----

  ghost predicate InfiniteRun(f: nat -> State, g: nat -> Event) {
    Init(f(0)) && forall i: nat :: Step(f(i), g(i), f(i + 1))
  }

  lemma Prefix(f: nat -> State, g: nat -> Event, m: nat) returns (tr: seq<State>, es: seq<Event>)
    requires InfiniteRun(f, g)
    ensures Run(tr, es) && |es| == m && |tr| == m + 1
    ensures (forall i :: 0 <= i <= m ==> tr[i] == f(i)) && forall i :: 0 <= i < m ==> es[i] == g(i)
  {
    hide Step, Init;
    tr, es := seq(m + 1, i requires 0 <= i => f(i)), seq(m, i requires 0 <= i => g(i));
    forall i | 0 <= i < m ensures Step(tr[i], es[i], tr[i + 1]) { assert Step(f(i), g(i), f(i + 1)); }
  }

  /** A sleeping scanner is woken if and only if the server is already committed, or there is at some time a spurious wake-up
      or an epoll round that brings something or is quiet. */
  lemma WokenExactly(f: nat -> State, g: nat -> Event, n: nat)
    requires InfiniteRun(f, g) && Sleeps(f(n))
    ensures (exists i: nat :: i > n && Wakes(f(i))) <==> Committed(f(n).control.server) || exists j: nat :: j >= n && Rouses(f(j), g(j))
  {
    hide InfiniteRun, Run, Rouses, Committed, Resting;
    if j: nat :| j >= n && Rouses(f(j), g(j)) {
      var tr, es := Prefix(f, g, j + 7);
      SleeperIsWoken(tr, es, n, j);
      var i :| n < i <= j + 7 && Wakes(tr[i]);
      assert Wakes(f(i));
    }
    if Committed(f(n).control.server) {
      var tr, es := Prefix(f, g, n + 6);
      SixAtMost(f(n).control.server);
      NotifiedSoon(tr, es, n);
      var i :| n < i <= n + 6 && Wakes(tr[i]);
      assert Wakes(f(i));
    }
    if i: nat :| i > n && Wakes(f(i)) {
      var tr, es := Prefix(f, g, i);
      SleeperIsServed(tr, es, n);
      if !Committed(f(n).control.server) && forall j: nat :: j >= n ==> !Rouses(f(j), g(j)) { SleepsOn(tr, es, n, i); }
    }
  }

  // ---- The scanner can sleep for ever ----

  /** The scanner goes to sleep; then epoll rounds that bring nothing to hand over alternate with checks of the server. */
  function StarvingState(i: nat): State {
    State(Control(if i < 4 || i % 2 == 1 then Check else Gather,
                  if i == 0 then Work else if i == 1 then SetReady else if i == 2 then Wait else Asleep,
                  if i == 1 || i == 2 then ByScanner else Free, i >= 2, true),
          Lists([], [], [], [], multiset{}, multiset{}, multiset{}, multiset{}))
  }

  function StarvingEvent(i: nat): Event {
    if i < 3 then Scanner(false) else if i % 2 == 1 then Server else Arrivals([], [], false)
  }

  /** There is a run in which the scanner is never woken: the server keeps receiving messages it has no use for. */
  lemma SleepsForEver()
    ensures InfiniteRun(StarvingState, StarvingEvent)
    ensures forall i: nat :: i >= 3 ==> Sleeps(StarvingState(i)) && !Rouses(StarvingState(i), StarvingEvent(i))
  {
    assert Init(StarvingState(0));
    forall i: nat ensures Step(StarvingState(i), StarvingEvent(i), StarvingState(i + 1)) {
      StarvingStep(i);
    }
  }

  lemma StarvingStep(i: nat)
    ensures Step(StarvingState(i), StarvingEvent(i), StarvingState(i + 1))
  {
    var none: seq<nat> := [];
    assert none + none == none && multiset(none) == multiset{};
    assert i >= 3 ==> (i % 2 == 1 <==> (i + 1) % 2 == 0);
  }

  /** Server steps left before it stops, once the scanner is gone. */
  function StepsToStop(pc: ServerPc): nat {
    match pc
    case Stopped => 0 case Check => 1 case Reset => 2 case Notify => 3 case Unlock => 4 case Insert => 5
    case Lock => 6 case Clear => 7 case BusyWait => 8 case Gather => 9
  }

  /** After the scanner has gone the server always can move, and it stops within nine moves. */
  lemma ServerStops(tr: seq<State>, es: seq<Event>, n: nat, e: Event)
    requires Run(tr, es) && n < |tr| && tr[n].control.scanner == Gone
    ensures tr[n].control.server != Stopped ==> Enabled(tr[n], Server) || Enabled(tr[n], Arrivals([], [], true))
    ensures Enabled(tr[n], e) ==> StepsToStop(ControlAfter(tr[n], e).server) < StepsToStop(tr[n].control.server)
    ensures Enabled(tr[n], e) ==> ControlAfter(tr[n], e).scanner == Gone
  {
    InvAlways(tr, es, n);
    hide Run, Conserved;
  }
}
