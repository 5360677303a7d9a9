/** The thread pool (DataStructs/threadsafe.h:237-305) as interleaved atomic steps: any number of workers, clients and
    spurious wake-ups ([thread.condition.condvar] of the C++ standard). */
module Threadpool {

  /** Before the lock, in the critical section, waiting, notified, running a task, returned. */
  datatype Worker = Entering | Holding | Sleeping | Woken | Executing(task: nat) | Returned

  /** Who holds qmtx; a client is inside enqueue with its task, already pushed or not. */
  datatype Holder = Free | ByWorker(i: nat) | ByClient(task: nat, pushed: bool) | ByCloser

  /** The destructor's progress. */
  datatype Closer = NotStarted | Locked | HasSet | Unlocked | Notified

  /** `notices` are the notify_one calls still to come from clients that have unlocked. `log` lists the tasks in the order
      they were enqueued, `popped` in the order they were taken, `done` are the executed ones. */
  datatype State = State(workers: seq<Worker>, holder: Holder, queue: seq<nat>, notices: nat, closer: Closer,
                         log: seq<nat>, popped: seq<nat>, done: multiset<nat>)

  datatype Event =
    | WorkerLock(i: nat) | WorkerTest(i: nat) | WorkerFinish(i: nat) | Spurious(i: nat)
    | ClientLock(task: nat) | ClientPush | ClientUnlock | NotifyOne(i: nat) | NotifyNone
    | CloserLock | CloserSet | CloserUnlock | CloserNotify

  ghost predicate Init(s: State) {
    && (forall i :: 0 <= i < |s.workers| ==> s.workers[i] == Entering)
    && s == State(s.workers, Free, [], 0, NotStarted, [], [], multiset{})
  }

  predicate Stop(s: State) {
    s.closer == HasSet || s.closer == Unlocked || s.closer == Notified
  }

  /** Clients may not start an enqueue once the destructor has begun. */
  predicate Enabled(s: State, e: Event) {
    match e
    case WorkerLock(i) => i < |s.workers| && s.holder == Free && (s.workers[i] == Entering || s.workers[i] == Woken)
    case WorkerTest(i) => i < |s.workers| && s.workers[i] == Holding
    case WorkerFinish(i) => i < |s.workers| && s.workers[i].Executing?
    case Spurious(i) => i < |s.workers| && s.workers[i] == Sleeping
    case ClientLock(_) => s.holder == Free && s.closer == NotStarted
    case ClientPush => s.holder.ByClient? && !s.holder.pushed
    case ClientUnlock => s.holder.ByClient? && s.holder.pushed
    case NotifyOne(i) => s.notices > 0 && i < |s.workers| && s.workers[i] == Sleeping
    case NotifyNone => s.notices > 0 && forall i :: 0 <= i < |s.workers| ==> s.workers[i] != Sleeping
    case CloserLock => s.holder == Free && s.closer == NotStarted
    case CloserSet => s.closer == Locked
    case CloserUnlock => s.closer == HasSet
    case CloserNotify => s.closer == Unlocked
  }

  /** The critical section of a worker: wait, return, or take the front task (threadsafe.h:255-265). */
  function TestResult(s: State, i: nat): State
    requires i < |s.workers|
  {
    if s.queue == [] then
      s.(workers := s.workers[i := if Stop(s) then Returned else Sleeping], holder := Free)
    else
      s.(workers := s.workers[i := Executing(s.queue[0])], holder := Free,
         queue := s.queue[1..], popped := s.popped + [s.queue[0]])
  }

  function WakeAll(workers: seq<Worker>): seq<Worker> {
    seq(|workers|, i requires 0 <= i < |workers| => if workers[i] == Sleeping then Woken else workers[i])
  }

  function After(s: State, e: Event): State
    requires Enabled(s, e)
  {
    match e
    case WorkerLock(i) => s.(workers := s.workers[i := Holding], holder := ByWorker(i))
    case WorkerTest(i) => TestResult(s, i)
    case WorkerFinish(i) => s.(workers := s.workers[i := Entering], done := s.done + multiset{s.workers[i].task})
    case Spurious(i) => s.(workers := s.workers[i := Woken])
    case ClientLock(task) => s.(holder := ByClient(task, false))
    case ClientPush => s.(holder := s.holder.(pushed := true), queue := s.queue + [s.holder.task], log := s.log + [s.holder.task])
    case ClientUnlock => s.(holder := Free, notices := s.notices + 1)
    case NotifyOne(i) => s.(workers := s.workers[i := Woken], notices := s.notices - 1)
    case NotifyNone => s.(notices := s.notices - 1)
    case CloserLock => s.(holder := ByCloser, closer := Locked)
    case CloserSet => s.(closer := HasSet)
    case CloserUnlock => s.(holder := Free, closer := Unlocked)
    case CloserNotify => s.(workers := WakeAll(s.workers), closer := Notified)
  }

  ghost predicate Run(tr: seq<State>, es: seq<Event>) {
    |tr| == |es| + 1 && Init(tr[0])
    && forall i :: 0 <= i < |es| ==> Enabled(tr[i], es[i]) && tr[i + 1] == After(tr[i], es[i])
  }

  // ---- Counting workers ----

  predicate IsReady(w: Worker) {
    w == Entering || w == Holding || w == Woken
  }

  /** Workers that will look at the queue without being notified. */
  function Ready(ws: seq<Worker>): nat {
    if ws == [] then 0 else Ready(ws[1..]) + if IsReady(ws[0]) then 1 else 0
  }

  function Sleepers(ws: seq<Worker>): nat {
    if ws == [] then 0 else Sleepers(ws[1..]) + if ws[0] == Sleeping then 1 else 0
  }

  function TaskOf(w: Worker): multiset<nat> {
    if w.Executing? then multiset{w.task} else multiset{}
  }

  function InFlight(ws: seq<Worker>): multiset<nat> {
    if ws == [] then multiset{} else TaskOf(ws[0]) + InFlight(ws[1..])
  }

  lemma {:induction false} ChangeReady(ws: seq<Worker>, i: nat, w: Worker)
    requires i < |ws|
    ensures Ready(ws[i := w]) + (if IsReady(ws[i]) then 1 else 0) == Ready(ws) + if IsReady(w) then 1 else 0
    ensures Sleepers(ws[i := w]) + (if ws[i] == Sleeping then 1 else 0) == Sleepers(ws) + if w == Sleeping then 1 else 0
  {
    if i == 0 {
      assert ws[i := w][1..] == ws[1..];
    } else {
      assert ws[i := w][1..] == ws[1..][i - 1 := w];
      ChangeReady(ws[1..], i - 1, w);
    }
  }

  lemma {:induction false} ChangeInFlight(ws: seq<Worker>, i: nat, w: Worker)
    requires i < |ws|
    ensures InFlight(ws[i := w]) + TaskOf(ws[i]) == InFlight(ws) + TaskOf(w)
  {
    if i == 0 {
      assert ws[i := w][1..] == ws[1..];
    } else {
      assert ws[i := w][1..] == ws[1..][i - 1 := w];
      hide TaskOf;
      ChangeInFlight(ws[1..], i - 1, w);
      UnderFirst(TaskOf(ws[0]), InFlight(ws[1..][i - 1 := w]), TaskOf(ws[i]), InFlight(ws[1..]), TaskOf(w));
    }
  }

  /** A worker that keeps, takes or finishes a task. */
  lemma ChangeTask(ws: seq<Worker>, i: nat, w: Worker)
    requires i < |ws|
    ensures TaskOf(w) == TaskOf(ws[i]) ==> InFlight(ws[i := w]) == InFlight(ws)
    ensures TaskOf(ws[i]) == multiset{} ==> InFlight(ws[i := w]) == InFlight(ws) + TaskOf(w)
    ensures TaskOf(w) == multiset{} ==> InFlight(ws) == InFlight(ws[i := w]) + TaskOf(ws[i])
  {
    hide InFlight, TaskOf;
    ChangeInFlight(ws, i, w);
    Cancel(InFlight(ws[i := w]), TaskOf(ws[i]), InFlight(ws), TaskOf(w));
  }

  lemma Cancel(a: multiset<nat>, b: multiset<nat>, c: multiset<nat>, d: multiset<nat>)
    requires a + b == c + d
    ensures b == d ==> a == c
    ensures b == multiset{} ==> a == c + d
    ensures d == multiset{} ==> c == a + b
  {
    assert forall x :: a[x] + b[x] == (a + b)[x] == (c + d)[x] == c[x] + d[x];
  }

  lemma UnderFirst(a: multiset<nat>, b: multiset<nat>, c: multiset<nat>, d: multiset<nat>, e: multiset<nat>)
    requires b + c == d + e
    ensures a + b + c == a + d + e
  {
    assert a + b + c == a + (b + c);
    assert a + d + e == a + (d + e);
  }

  lemma WakeAllTail(ws: seq<Worker>)
    requires ws != []
    ensures WakeAll(ws) == [if ws[0] == Sleeping then Woken else ws[0]] + WakeAll(ws[1..])
    ensures WakeAll(ws)[1..] == WakeAll(ws[1..])
  {
  }

  lemma {:induction false} WakeAllCounts(ws: seq<Worker>)
    ensures InFlight(WakeAll(ws)) == InFlight(ws) && Sleepers(WakeAll(ws)) == 0
  {
    if ws != [] {
      WakeAllTail(ws);
      hide WakeAll;
      WakeAllCounts(ws[1..]);
    }
  }

  lemma {:induction false} NoSleepers(ws: seq<Worker>)
    ensures Sleepers(ws) == 0 <==> forall i :: 0 <= i < |ws| ==> ws[i] != Sleeping
  {
    if ws != [] {
      NoSleepers(ws[1..]);
      assert forall i :: 0 < i < |ws| ==> ws[i] == ws[1..][i - 1];
    }
  }

  // ---- The invariant ----

  /** Notifications still to come, including that of a client about to unlock. */
  function Owed(s: State): nat {
    s.notices + if s.holder.ByClient? && s.holder.pushed then 1 else 0
  }

  ghost predicate Locks(s: State) {
    && (forall i :: 0 <= i < |s.workers| ==> (s.workers[i] == Holding <==> s.holder == ByWorker(i)))
    && (s.holder.ByWorker? ==> s.holder.i < |s.workers|)
    && (s.holder.ByCloser? <==> s.closer == Locked || s.closer == HasSet)
    && (s.holder.ByClient? ==> s.closer == NotStarted)
  }

  ghost predicate Returns(s: State) {
    && (forall i :: 0 <= i < |s.workers| && s.workers[i] == Returned ==> Stop(s) && s.queue == [])
    && (s.closer == Notified ==> forall i :: 0 <= i < |s.workers| ==> s.workers[i] != Sleeping)
  }

  /** While somebody sleeps, each queued task has a ready worker or an owed notification to itself. */
  predicate NoLostNotice(s: State) {
    Sleepers(s.workers) > 0 ==> |s.queue| <= Owed(s) + Ready(s.workers)
  }

  predicate Tasks(s: State) {
    s.log == s.popped + s.queue && multiset(s.popped) == s.done + InFlight(s.workers)
  }

  ghost predicate Inv(s: State) {
    Locks(s) && Returns(s) && NoLostNotice(s) && Tasks(s)
  }

  lemma LocksKept(s: State, e: Event)
    requires Locks(s) && Enabled(s, e)
    ensures Locks(After(s, e))
  {
  }

  /** One worker changes: enough ready workers and owed notifications remain if each sleeper had one before, and what the
      change takes away it makes up for. */
  lemma NoticesOne(s: State, i: nat, w: Worker, t: State)
    requires NoLostNotice(s) && i < |s.workers| && t.workers == s.workers[i := w]
    requires w == Sleeping ==> t.queue == []
    requires |t.queue| - Owed(t) - (if IsReady(w) then 1 else 0) <= |s.queue| - Owed(s) - (if IsReady(s.workers[i]) then 1 else 0)
    ensures NoLostNotice(t)
  {
    hide Ready, Sleepers, Owed, IsReady;
    ChangeReady(s.workers, i, w);
  }

  lemma NoticesKept(s: State, e: Event)
    requires Locks(s) && NoLostNotice(s) && Enabled(s, e)
    ensures NoLostNotice(After(s, e))
  {
    hide Ready, Sleepers, WakeAll;
    var t := After(s, e);
    match e {
      case WorkerLock(i) => NoticesOne(s, i, Holding, t);
      case WorkerTest(i) => if s.queue != [] { NoticesOne(s, i, Executing(s.queue[0]), t); }
      case WorkerFinish(i) => NoticesOne(s, i, Entering, t);
      case Spurious(i) => NoticesOne(s, i, Woken, t);
      case NotifyOne(i) => NoticesOne(s, i, Woken, t);
      case NotifyNone => NoSleepers(s.workers);
      case CloserNotify => WakeAllCounts(s.workers);
      case _ =>
    }
  }

  /** A worker that neither takes nor finishes a task. */
  lemma SameTasks(s: State, i: nat, w: Worker)
    requires Tasks(s) && i < |s.workers| && !s.workers[i].Executing? && !w.Executing?
    ensures Tasks(s.(workers := s.workers[i := w]))
  {
    hide InFlight;
    ChangeTask(s.workers, i, w);
  }

  lemma FinishTasks(s: State, i: nat)
    requires Tasks(s) && i < |s.workers| && s.workers[i].Executing?
    ensures Tasks(s.(workers := s.workers[i := Entering], done := s.done + multiset{s.workers[i].task}))
  {
    hide InFlight;
    ChangeTask(s.workers, i, Entering);
  }

  /** Tasks looks at the workers, the queue and the logs only. */
  lemma TasksFrame(s: State, t: State)
    requires Tasks(s) && t.workers == s.workers && t.queue == s.queue && t.log == s.log && t.popped == s.popped && t.done == s.done
    ensures Tasks(t)
  {
    hide InFlight;
  }

  lemma PushTasks(s: State)
    requires Tasks(s) && Enabled(s, ClientPush)
    ensures Tasks(After(s, ClientPush))
  {
    hide InFlight;
    assert s.popped + s.queue + [s.holder.task] == s.popped + (s.queue + [s.holder.task]);
  }

  lemma WakeAllTasks(s: State)
    requires Tasks(s)
    ensures Tasks(s.(workers := WakeAll(s.workers)))
  {
    hide InFlight, WakeAll;
    WakeAllCounts(s.workers);
  }

  lemma TasksKept(s: State, e: Event)
    requires Tasks(s) && Enabled(s, e)
    ensures Tasks(After(s, e))
  {
    hide Tasks, WakeAll, TestResult;
    var t := After(s, e);
    match e {
      case WorkerLock(i) => SameTasks(s, i, Holding); TasksFrame(s.(workers := t.workers), t);
      case WorkerTest(i) => TestTasks(s, i);
      case WorkerFinish(i) => FinishTasks(s, i);
      case Spurious(i) => SameTasks(s, i, Woken);
      case NotifyOne(i) => SameTasks(s, i, Woken); TasksFrame(s.(workers := t.workers), t);
      case ClientPush => PushTasks(s);
      case CloserNotify => WakeAllTasks(s); TasksFrame(s.(workers := t.workers), t);
      case _ => TasksFrame(s, t);
    }
  }

  lemma TestTasks(s: State, i: nat)
    requires Tasks(s) && i < |s.workers| && s.workers[i] == Holding
    ensures Tasks(TestResult(s, i))
  {
    hide InFlight;
    if s.queue == [] {
      ChangeTask(s.workers, i, if Stop(s) then Returned else Sleeping);
    } else {
      var task := s.queue[0];
      ChangeTask(s.workers, i, Executing(task));
      assert s.queue == [task] + s.queue[1..];
      assert s.popped + s.queue == s.popped + [task] + s.queue[1..];
      assert multiset(s.popped + [task]) == multiset(s.popped) + multiset{task};
    }
  }

  lemma ReturnsKept(s: State, e: Event)
    requires Locks(s) && Returns(s) && Enabled(s, e)
    ensures Returns(After(s, e))
  {
  }

  lemma {:induction false} StartCounts(ws: seq<Worker>)
    requires forall i :: 0 <= i < |ws| ==> ws[i] == Entering
    ensures InFlight(ws) == multiset{} && Sleepers(ws) == 0
  {
    if ws != [] { StartCounts(ws[1..]); }
  }

  lemma {:induction false} InvAlways(tr: seq<State>, es: seq<Event>, n: nat)
    requires Run(tr, es) && n < |tr|
    ensures Inv(tr[n])
  {
    hide Enabled, After, InFlight, Sleepers, Ready;
    if n == 0 {
      StartCounts(tr[0].workers);
    } else {
      InvAlways(tr, es, n - 1);
      assert tr[n - 1 + 1] == After(tr[n - 1], es[n - 1]);
      LocksKept(tr[n - 1], es[n - 1]);
      NoticesKept(tr[n - 1], es[n - 1]);
      TasksKept(tr[n - 1], es[n - 1]);
      ReturnsKept(tr[n - 1], es[n - 1]);
    }
  }

  // ---- What the pool guarantees ----

  /** First in, first out, and every enqueued task is queued, in flight or executed, exactly once. */
  lemma TasksConserved(tr: seq<State>, es: seq<Event>, n: nat)
    requires Run(tr, es) && n < |tr|
    ensures tr[n].log == tr[n].popped + tr[n].queue
    ensures multiset(tr[n].log) == multiset(tr[n].queue) + InFlight(tr[n].workers) + tr[n].done
  {
    InvAlways(tr, es, n);
  }

  predicate Awake(w: Worker) {
    w != Sleeping && w != Returned
  }

  /** A non-empty queue of a pool with workers always has an awake worker or a notification to come; more precisely, as
      long as someone sleeps there are as many ready workers and owed notifications as queued tasks. */
  lemma QueueHasHelp(tr: seq<State>, es: seq<Event>, n: nat)
    requires Run(tr, es) && n < |tr| && tr[n].queue != [] && tr[n].workers != []
    ensures Owed(tr[n]) > 0 || exists i :: 0 <= i < |tr[n].workers| && Awake(tr[n].workers[i])
    ensures Sleepers(tr[n].workers) > 0 ==> |tr[n].queue| <= Owed(tr[n]) + Ready(tr[n].workers)
  {
    InvAlways(tr, es, n);
    var ws := tr[n].workers;
    if !exists i :: 0 <= i < |ws| && Awake(ws[i]) {
      assert !Awake(ws[0]);
      NoSleepers(ws);
      NoneReady(ws);
    }
  }

  lemma {:induction false} NoneReady(ws: seq<Worker>)
    requires forall i :: 0 <= i < |ws| ==> !Awake(ws[i])
    ensures Ready(ws) == 0
  {
    if ws != [] {
      assert !Awake(ws[0]);
      NoneReady(ws[1..]);
    }
  }

  /** When the destructor's joins are over, every enqueued task has been executed, once. */
  lemma JoinedMeansDone(tr: seq<State>, es: seq<Event>, n: nat)
    requires Run(tr, es) && n < |tr| && tr[n].workers != []
    requires forall i :: 0 <= i < |tr[n].workers| ==> tr[n].workers[i] == Returned
    ensures Stop(tr[n]) && tr[n].done == multiset(tr[n].log)
  {
    InvAlways(tr, es, n);
    assert tr[n].workers[0] == Returned;
    NoneInFlight(tr[n].workers);
  }

  lemma {:induction false} NoneInFlight(ws: seq<Worker>)
    requires forall i :: 0 <= i < |ws| ==> ws[i] == Returned
    ensures InFlight(ws) == multiset{}
  {
    if ws != [] { NoneInFlight(ws[1..]); }
  }

  // ---- What can happen ----

  /** With the mutex free and the pool not closing, a client can enqueue any task: it goes to the end of the queue and one more
      notification is due. */
  lemma EnqueueWorks(s: State, task: nat) returns (s1: State, s2: State, s3: State)
    requires s.holder == Free && s.closer == NotStarted
    ensures Enabled(s, ClientLock(task)) && s1 == After(s, ClientLock(task))
    ensures Enabled(s1, ClientPush) && s2 == After(s1, ClientPush)
    ensures Enabled(s2, ClientUnlock) && s3 == After(s2, ClientUnlock)
    ensures s3 == s.(queue := s.queue + [task], log := s.log + [task], notices := s.notices + 1)
  {
    s1 := After(s, ClientLock(task));
    s2 := After(s1, ClientPush);
    s3 := After(s2, ClientUnlock);
  }

  /** The destructor can always take its next step, but for the mutex. */
  lemma CloserCanMove(tr: seq<State>, es: seq<Event>, n: nat)
    requires Run(tr, es) && n < |tr|
    ensures tr[n].closer == NotStarted && tr[n].holder == Free ==> Enabled(tr[n], CloserLock)
    ensures tr[n].closer == Locked ==> Enabled(tr[n], CloserSet)
    ensures tr[n].closer == HasSet ==> Enabled(tr[n], CloserUnlock)
    ensures tr[n].closer == Unlocked ==> Enabled(tr[n], CloserNotify)
  {
  }

  /** A notification that is due can be delivered: to any sleeper, or to nobody when nobody sleeps. */
  lemma NoticeCanGo(s: State)
    requires s.notices > 0
    ensures forall i :: 0 <= i < |s.workers| && s.workers[i] == Sleeping ==> Enabled(s, NotifyOne(i)) && After(s, NotifyOne(i)).workers[i] == Woken
    ensures (forall i :: 0 <= i < |s.workers| ==> s.workers[i] != Sleeping) ==> Enabled(s, NotifyNone)
  {
  }

  /** The mutex is never stuck: whoever holds it can move and gives it up within two moves. */
  lemma MutexIsReleased(tr: seq<State>, es: seq<Event>, n: nat)
    requires Run(tr, es) && n < |tr| && tr[n].holder != Free
    ensures var s := tr[n];
            match s.holder
            case ByWorker(i) => Enabled(s, WorkerTest(i)) && After(s, WorkerTest(i)).holder == Free
            case ByClient(_, pushed) => if pushed then Enabled(s, ClientUnlock) && After(s, ClientUnlock).holder == Free else Enabled(s, ClientPush)
            case ByCloser => if s.closer == HasSet then Enabled(s, CloserUnlock) && After(s, CloserUnlock).holder == Free else Enabled(s, CloserSet)
  {
    InvAlways(tr, es, n);
    hide Run, InFlight, Sleepers, Ready;
  }

  /** A worker that gets the mutex takes the front task if there is one; else it goes to sleep, or returns when the pool is
      stopping. A finished task is executed and the worker starts again. */
  lemma WorkerLaw(s: State, i: nat)
    requires i < |s.workers|
    ensures s.workers[i] == Holding && s.queue != [] ==>
              After(s, WorkerTest(i)).workers[i] == Executing(s.queue[0]) && After(s, WorkerTest(i)).queue == s.queue[1..]
    ensures s.workers[i] == Holding && s.queue == [] ==>
              After(s, WorkerTest(i)).workers[i] == (if s.closer in {HasSet, Unlocked, Notified} then Returned else Sleeping)
    ensures s.workers[i].Executing? ==>
              After(s, WorkerFinish(i)).workers[i] == Entering && After(s, WorkerFinish(i)).done == s.done + multiset{s.workers[i].task}
    ensures (s.workers[i] == Entering || s.workers[i] == Woken) && s.holder == Free ==>
              Enabled(s, WorkerLock(i)) && After(s, WorkerLock(i)).workers[i] == Holding
  {
  }

  // ---- The joins end ----

  function Rank(w: Worker): nat {
    match w
    case Returned => 0 case Holding => 1 case Entering => 2 case Woken => 2 case Executing(_) => 3 case Sleeping => 4
  }

  function Ranks(ws: seq<Worker>): nat {
    if ws == [] then 0 else Rank(ws[0]) + Ranks(ws[1..])
  }

  lemma {:induction false} ChangeRank(ws: seq<Worker>, i: nat, w: Worker)
    requires i < |ws|
    ensures Ranks(ws[i := w]) + Rank(ws[i]) == Ranks(ws) + Rank(w)
  {
    if i == 0 {
      assert ws[i := w][1..] == ws[1..];
    } else {
      assert ws[i := w][1..] == ws[1..][i - 1 := w];
      ChangeRank(ws[1..], i - 1, w);
    }
  }

  /** Work left for the joins: tasks to pop and critical sections to go through. */
  function WorkLeft(s: State): nat {
    4 * |s.queue| + Ranks(s.workers)
  }

  predicate OfWorker(e: Event) {
    e.WorkerLock? || e.WorkerTest? || e.WorkerFinish?
  }

  /** Once the destructor has notified all, some worker can move as long as one has not returned, and every worker move
      reduces the work left. */
  lemma JoinsEnd(tr: seq<State>, es: seq<Event>, n: nat, j: nat, e: Event)
    requires Run(tr, es) && n < |tr| && tr[n].closer == Notified
    requires j < |tr[n].workers| && tr[n].workers[j] != Returned
    ensures exists m :: OfWorker(m) && Enabled(tr[n], m)
    ensures OfWorker(e) && Enabled(tr[n], e) ==> WorkLeft(After(tr[n], e)) < WorkLeft(tr[n])
  {
    InvAlways(tr, es, n);
    var s := tr[n];
    hide Run, Sleepers, Ready, InFlight, Tasks;
    if s.workers[j].Executing? {
      assert Enabled(s, WorkerFinish(j));
    } else if s.holder == Free {
      assert Enabled(s, WorkerLock(j));
    } else {
      HolderIsWorker(s);
    }
    if OfWorker(e) && Enabled(s, e) { MoveReduces(s, e); }
  }

  lemma HolderIsWorker(s: State)
    requires Locks(s) && s.closer == Notified && s.holder != Free
    ensures exists m :: OfWorker(m) && Enabled(s, m)
  {
    assert Enabled(s, WorkerTest(s.holder.i));
  }

  lemma MoveReduces(s: State, e: Event)
    requires Stop(s) && OfWorker(e) && Enabled(s, e)
    ensures WorkLeft(After(s, e)) < WorkLeft(s)
  {
    hide Ranks;
    match e {
      case WorkerLock(i) => ChangeRank(s.workers, i, Holding);
      case WorkerTest(i) => ChangeRank(s.workers, i, if s.queue == [] then Returned else Executing(s.queue[0]));
      case WorkerFinish(i) => ChangeRank(s.workers, i, Entering);
    }
  }
}
