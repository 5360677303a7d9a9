/** Fanning a request out to f + 1 random peers and the owner (peer.cpp:421-470, networking.cpp:476-522). */
module Requests {
  import opened FiniteSets

  /** A send task: which socket, and which heap copy of the message it consumes. */
  datatype Send = Send(socket: nat, copy: nat)

  /** The f + 2 heap copies of the message are consumed once each: by a send task, which frees it whether or not it drops
      the message, or by the final free. */
  function Consumed(tasks: seq<Send>, freed: seq<nat>): multiset<nat> {
    multiset(seq(|tasks|, i requires 0 <= i < |tasks| => tasks[i].copy)) + multiset(freed)
  }

  function Recipients(tasks: seq<Send>): seq<nat> {
    seq(|tasks|, i requires 0 <= i < |tasks| => tasks[i].socket)
  }

  function Numbers(n: nat): seq<nat> {
    seq(n, i requires 0 <= i < n => i)
  }

  /** `sockets` are the client's sockets after the shuffle. */
  method MakeRequest(byzantines: nat, sockets: seq<nat>, owner: nat) returns (tasks: seq<Send>, freed: seq<nat>)
    requires |sockets| >= byzantines + 1
    ensures Consumed(tasks, freed) == multiset(Numbers(byzantines + 2))
    ensures owner in Recipients(tasks)
    ensures Recipients(tasks) == sockets[..byzantines + 1] || Recipients(tasks) == sockets[..byzantines + 1] + [owner]
    ensures Distinct(sockets) ==> Distinct(Recipients(tasks)) && byzantines + 1 <= |tasks| <= byzantines + 2
  {
    var heapPtrs := byzantines + 2;
    var sentToOwner := false;
    tasks, freed := [], [];
    var i := 0;
    while i < byzantines + 1
      invariant 0 <= i <= byzantines + 1
      invariant |tasks| == i && forall k :: 0 <= k < i ==> tasks[k] == Send(sockets[k], k)
      invariant sentToOwner <==> owner in sockets[..i]
    {
      tasks := tasks + [Send(sockets[i], i)];
      if sockets[i] == owner { sentToOwner := true; }
      assert sockets[..i + 1] == sockets[..i] + [sockets[i]];
      i := i + 1;
    }
    ghost var first := tasks;
    assert Recipients(first) == sockets[..i];
    assert Numbers(heapPtrs) == Numbers(i) + [i];
    assert seq(|first|, k requires 0 <= k < |first| => first[k].copy) == Numbers(i);
    if !sentToOwner {
      tasks := tasks + [Send(owner, heapPtrs - 1)];
      assert Recipients(tasks) == sockets[..i] + [owner];
      assert seq(|tasks|, k requires 0 <= k < |tasks| => tasks[k].copy) == Numbers(heapPtrs);
      assert Recipients(tasks)[i] == owner;
    } else {
      freed := [heapPtrs - 1];
      assert multiset(Numbers(i) + [i]) == multiset(Numbers(i)) + multiset([i]);
    }
  }

  /** f + 1 or more distinct recipients are not all among any f faulty peers. */
  lemma SomeRecipientIsCorrect(recipients: seq<nat>, byzantines: nat, faulty: set<nat>)
    requires Distinct(recipients) && |recipients| >= byzantines + 1 && |faulty| <= byzantines
    ensures exists r :: r in recipients && r !in faulty
  {
    DistinctSize(recipients);
    if forall r :: r in recipients ==> r in faulty {
      SubsetSize(Elements(recipients), faulty);
    }
  }
}
