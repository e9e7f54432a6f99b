/**
  What the queue of pending peers holds. It is meant to hold the pending peers only; the code
  lets two kinds of steps leave an entry behind that is not pending any more.
 */
module CatchUpQueue {
  import opened Common
  import opened Consensus
  import opened CatchUp
  import opened CatchUpRuns

  /** The queue holds every pending peer once, and nothing else. */
  ghost predicate Exact(p: Peers) {
    && Distinct(p.queue)
    && forall id: PeerId :: id in p.queue <==> Has(p, id, Pending)
  }

  /** A catch-up status of a pending peer that consensus answers with success. */
  predicate CaughtUpWhilePending(s: Sched, t: Step) {
    t.Inbound? && t.variant == CatchUpStatus && t.answer == Success && Has(s.peers, t.src, Pending)
  }

  /** The peer seen in the slot is found disconnected after it has been queued again, not as the first. */
  predicate GoneWhilePending(s: Sched, t: Step) {
    && t.PeerGone? && s.poll.Saw? && s.poll.slot.Some?
    && Has(s.peers, s.poll.slot.value, Pending)
    && (s.peers.queue == [] || s.peers.queue[0] != s.poll.slot.value)
  }

  predicate Tidy(s: Sched, t: Step) {
    !CaughtUpWhilePending(s, t) && !GoneWhilePending(s, t)
  }

  // ----- the operations

  lemma NextPendingExact(p: Peers)
    requires Exact(p)
    ensures Exact(NextPending(p))
  {
    if p.queue == [] {
    } else {
      var q, first := NextPending(p), p.queue[0];
      assert first in p.queue;
      assert p.queue == [first] + q.queue;
      assert forall id: PeerId :: Has(q, id, Pending) <==> Has(p, id, Pending) && id != first;
    }
  }

  lemma WithoutExact(p: Peers, id: PeerId)
    requires Exact(p) && !Has(p, id, Pending)
    ensures Exact(Without(p, id))
  {
    assert forall x, s :: Has(Without(p, id), x, s) <==> x != id && Has(p, x, s);
  }

  lemma TryCatchUpExact(p: Peers, now: nat, sent: bool)
    requires Exact(p)
    ensures Exact(TryCatchUp(p, now, sent))
  {
    NextPendingExact(p);
    var q := NextPending(p).(stamp := now);
    assert forall id, s :: Has(q, id, s) == Has(NextPending(p), id, s);
    if p.queue != [] {
      assert p.queue[0] in p.queue;
      WithoutExact(q, p.queue[0]);
    }
  }

  /** Dropping a pending peer: its entry is skipped if it is the first, and stays behind otherwise. */
  lemma DropPendingExact(p: Peers, id: PeerId, now: nat, sent: bool)
    requires Exact(p) && Has(p, id, Pending)
    ensures Exact(TryCatchUp(Without(p, id), now, sent)) <==> p.queue[0] == id
  {
    var q := Without(p, id);
    assert forall x, s :: Has(q, x, s) <==> x != id && Has(p, x, s);
    var first, rest := p.queue[0], p.queue[1..];
    assert first in p.queue && p.queue == [first] + rest;
    if first == id {
      var q' := q.(queue := rest);
      assert NextPending(q) == NextPending(q');
      assert forall x, s :: Has(q', x, s) == Has(q, x, s);
      TryCatchUpExact(q', now, sent);
    } else {
      var r := TryCatchUp(q, now, sent);
      assert r.queue == rest && id in rest;
      assert id !in r.states;
    }
  }

  lemma PushExact(p: Peers, id: PeerId)
    requires Exact(p) && !Has(p, id, Pending)
    ensures Exact(Push(p, id))
  {
    var q := Push(p, id);
    assert forall x, s :: x != id ==> Has(q, x, s) == Has(p, x, s);
  }

  lemma {:induction false} RetainDistinct(q: seq<PeerId>, ids: seq<PeerId>)
    requires Distinct(q)
    ensures Distinct(Retain(q, ids))
    decreases |q|
  {
    if q == [] {
    } else {
      RetainDistinct(q[1..], ids);
      RetainKeeps(q[1..], ids, q[0]);
    }
  }

  lemma {:induction false} AddNewExact(p: Peers, ids: seq<PeerId>)
    requires Exact(p)
    ensures Exact(AddNew(p, ids))
    decreases |ids|
  {
    if ids == [] {
    } else if ids[0] in p.states {
      AddNewExact(p, ids[1..]);
    } else {
      PushExact(p, ids[0]);
      AddNewExact(Push(p, ids[0]), ids[1..]);
    }
  }

  lemma UpdatePeerListExact(p: Peers, ids: seq<PeerId>)
    requires Exact(p)
    ensures Exact(UpdatePeerList(p, ids))
  {
    var f := Forget(p, ids);
    RetainDistinct(p.queue, ids);
    forall id: PeerId ensures id in f.queue <==> Has(f, id, Pending) {
      RetainKeeps(p.queue, ids, id);
    }
    AddNewExact(f, ids);
  }

  lemma MarkAllPendingExact(p: Peers, order: seq<PeerId>)
    requires Exact(p) && Enumerates(order, p)
    ensures Exact(MarkAllPending(p, order))
  {
    var q := MarkAllPending(p, order);
    assert forall id: PeerId :: Has(q, id, Pending) <==> Has(p, id, Pending) || Has(p, id, UpToDate);
    forall i, j | 0 <= i < |p.queue| <= j < |q.queue| ensures q.queue[i] != q.queue[j] {
      assert q.queue[i] in p.queue && q.queue[j] in order;
    }
  }

  lemma InboundExact(p: Peers, src: PeerId, variant: PacketType, mode: DistributionMode, answer: Response)
    requires Exact(p)
    ensures Exact(UpdatePeerStates(p, src, variant, mode, answer))
            <==> !(variant == CatchUpStatus && answer == Success && Has(p, src, Pending))
  {
    var q := UpdatePeerStates(p, src, variant, mode, answer);
    if variant == CatchUpStatus && answer == Success {
      assert forall x, s :: Has(q, x, s) <==> if x == src then s == UpToDate else Has(p, x, s);
      assert src in q.queue <==> Has(p, src, Pending);
    } else if !Has(p, src, Pending) {
      PushExact(p, src);
      SlotIrrelevant(Push(p, src), None);
    } else {
      SlotIrrelevant(p, None);
    }
  }

  lemma SlotIrrelevant(p: Peers, slot: Option<PeerId>)
    requires Exact(p)
    ensures Exact(p.(slot := slot))
  {
    assert forall x, s :: Has(p.(slot := slot), x, s) == Has(p, x, s);
  }

  // ----- steps and runs

  /** From an exact queue, a step of either thread leads to an exact queue if and only if it is tidy. */
  lemma StepExact(s: Sched, t: Step)
    requires Inv(s) && Enabled(s, t) && Exact(s.peers)
    ensures Exact(Next(s, t).peers) <==> Tidy(s, t)
  {
    hide Exact, UpdatePeerStates, UpdatePeerList, TryCatchUp, MarkAllPending, Consistent;
    match t
    case Refresh(ids) => UpdatePeerListExact(s.peers, ids);
    case Regenesis(order) => MarkAllPendingExact(s.peers, order);
    case Look =>
    case StillConnected =>
    case PeerGone(now, sent) =>
      var id := s.poll.slot.value;
      if Has(s.peers, id, Pending) {
        PendingIsQueued(s.peers, id);
        DropPendingExact(s.peers, id, now, sent);
      } else {
        WithoutExact(s.peers, id);
        TryCatchUpExact(Without(s.peers, id), now, sent);
      }
    case NobodySeen(now, sent) => TryCatchUpExact(s.peers, now, sent);
    case Shutdown => NoPeersExact(s.peers.stamp);
    case Inbound(src, variant, mode, answer) => InboundExact(s.peers, src, variant, mode, answer);
  }

  lemma PendingIsQueued(p: Peers, id: PeerId)
    requires Exact(p) && Has(p, id, Pending)
    ensures p.queue != []
  {
    assert id in p.queue;
  }

  lemma NoPeersExact(stamp: nat)
    ensures Exact(NO_PEERS.(stamp := stamp))
  {
  }

  /** In the interleavings of the two threads, the queue is exact throughout if and only if all steps are tidy. */
  lemma RunExact(steps: seq<Step>)
    requires Legal(INIT, steps)
    ensures (forall i :: 0 <= i <= |steps| ==> Exact(Exec(INIT, steps[..i]).peers))
            <==> (forall i :: 0 <= i < |steps| ==> Tidy(Exec(INIT, steps[..i]), steps[i]))
  {
    hide Exact, Tidy, Inv, Next;
    if forall i :: 0 <= i < |steps| ==> Tidy(Exec(INIT, steps[..i]), steps[i]) {
      forall i | 0 <= i <= |steps| ensures Exact(Exec(INIT, steps[..i]).peers) {
        TidyRunExact(steps, i);
      }
    } else {
      var i :| 0 <= i < |steps| && !Tidy(Exec(INIT, steps[..i]), steps[i]);
      if Exact(Exec(INIT, steps[..i]).peers) {
        OneMoreStep(steps, i);
        StepExact(Exec(INIT, steps[..i]), steps[i]);
      }
    }
  }

  lemma OneMoreStep(steps: seq<Step>, i: nat)
    requires Legal(INIT, steps) && i < |steps|
    ensures Inv(Exec(INIT, steps[..i])) && Enabled(Exec(INIT, steps[..i]), steps[i])
    ensures Exec(INIT, steps[..i + 1]) == Next(Exec(INIT, steps[..i]), steps[i])
  {
    assert forall j :: 0 <= j < i ==> steps[..i][..j] == steps[..j] && steps[..i][j] == steps[j];
    RunKeepsInv(INIT, steps[..i]);
    assert steps[..i + 1][..i] == steps[..i] && steps[..i + 1][i] == steps[i];
  }

  lemma {:induction false} TidyRunExact(steps: seq<Step>, i: nat)
    requires Legal(INIT, steps) && i <= |steps|
    requires forall j :: 0 <= j < |steps| ==> Tidy(Exec(INIT, steps[..j]), steps[j])
    ensures Exact(Exec(INIT, steps[..i]).peers)
    decreases i
  {
    hide Tidy, Inv, Next;
    if i == 0 {
      NoPeersExact(0);
    } else {
      TidyRunExact(steps, i - 1);
      OneMoreStep(steps, i - 1);
      StepExact(Exec(INIT, steps[..i - 1]), steps[i - 1]);
    }
  }

  // ----- both kinds of steps do occur

  ghost predicate Reaches(steps: seq<Step>, s: Sched) {
    Legal(INIT, steps) && Exec(INIT, steps) == s
  }

  lemma ReachesNext(steps: seq<Step>, s: Sched, t: Step, s': Sched)
    requires Reaches(steps, s) && Enabled(s, t) && Next(s, t) == s'
    ensures Reaches(steps + [t], s')
  {
    ExtendRun(INIT, steps, t);
  }

  /** A new peer reports that we are up to date with it before it has been selected: its entry stays in the queue. */
  lemma StaleAfterSuccess()
    ensures var steps := [Refresh([1]), Inbound(1, CatchUpStatus, Direct, Success)];
            var p := Exec(INIT, steps).peers;
            Legal(INIT, steps) && 1 in p.queue && Has(p, 1, UpToDate) && !Exact(p)
  {
    hide Reaches;
    var first, second := Refresh([1]), Inbound(1, CatchUpStatus, Direct, Success);
    var one := Peers(map[1 := Pending], None, 0, [1]);
    var two := Peers(map[1 := UpToDate], None, 0, [1]);
    RefreshedWith1();
    ReachesNext([], INIT, first, Sched(one, Idle));
    assert UpdatePeerStates(one, 1, CatchUpStatus, Direct, Success) == two;
    ReachesNext([first], Sched(one, Idle), second, Sched(two, Idle));
    assert [first] + [second] == [first, second];
    ReachedState([first, second], Sched(two, Idle));
    assert 1 in two.queue;
  }

  lemma RefreshedWith1()
    ensures UpdatePeerList(NO_PEERS, [1]) == Peers(map[1 := Pending], None, 0, [1])
    ensures Reaches([], INIT) && [] + [Refresh([1])] == [Refresh([1])]
  {
    assert Forget(NO_PEERS, [1]) == NO_PEERS;
    assert [1][1..] == [] && [] + [1] == [1];
  }

  lemma RefreshedWithBoth()
    ensures UpdatePeerList(NO_PEERS, [1, 2]) == BOTH
    ensures Reaches([], INIT)
  {
    assert Forget(NO_PEERS, [1, 2]) == NO_PEERS;
    assert [1, 2][1..] == [2] && [2][1..] == [] && [] + [1] == [1] && [1] + [2] == [1, 2];
  }

  const BOTH := Peers(map[1 := Pending, 2 := Pending], None, 0, [1, 2])
  const BUSY := Peers(map[1 := CatchingUp, 2 := Pending], Some(1), 0, [2])
  const AGAIN := Peers(map[1 := Pending, 2 := Pending], None, 0, [2, 1])
  const LEFT := Peers(map[2 := CatchingUp], Some(2), 0, [1])

  const QUEUED_AGAIN := Inbound(1, CatchUpStatus, Direct, PendingBlock)

  const GONE := [Refresh([1, 2])] + [Look] + [NobodySeen(0, true)] + [Look] + [QUEUED_AGAIN] + [PeerGone(0, true)]

  /**
    The poll thread sees that peer 1 is being caught up with; peer 1 is queued again behind
    peer 2; then its connection is found gone. Its entry stays in the queue.
   */
  lemma StaleAfterDisconnect()
    ensures var p := Exec(INIT, GONE).peers;
            Legal(INIT, GONE) && 1 in p.queue && 1 !in p.states && !Exact(p)
  {
    hide Reaches, Enabled, Next;
    RefreshedWithBoth();
    StepsOfGone();
    assert [] + [Refresh([1, 2])] == [Refresh([1, 2])];
    ReachesNext([], INIT, Refresh([1, 2]), Sched(BOTH, Idle));
    var steps := [Refresh([1, 2])];
    ReachesNext(steps, Sched(BOTH, Idle), Look, Sched(BOTH, Saw(None)));
    steps := steps + [Look];
    ReachesNext(steps, Sched(BOTH, Saw(None)), NobodySeen(0, true), Sched(BUSY, Idle));
    steps := steps + [NobodySeen(0, true)];
    ReachesNext(steps, Sched(BUSY, Idle), Look, Sched(BUSY, Saw(Some(1))));
    steps := steps + [Look];
    ReachesNext(steps, Sched(BUSY, Saw(Some(1))), QUEUED_AGAIN, Sched(AGAIN, Saw(Some(1))));
    steps := steps + [QUEUED_AGAIN];
    ReachesNext(steps, Sched(AGAIN, Saw(Some(1))), PeerGone(0, true), Sched(LEFT, Idle));
    ReachedState(GONE, Sched(LEFT, Idle));
    assert 1 in LEFT.queue;
  }

  lemma StepsOfGone()
    ensures Enabled(INIT, Refresh([1, 2])) && Next(INIT, Refresh([1, 2])) == Sched(BOTH, Idle)
    ensures Enabled(Sched(BOTH, Idle), Look) && Next(Sched(BOTH, Idle), Look) == Sched(BOTH, Saw(None))
    ensures var s := Sched(BOTH, Saw(None)); Enabled(s, NobodySeen(0, true)) && Next(s, NobodySeen(0, true)) == Sched(BUSY, Idle)
    ensures Enabled(Sched(BUSY, Idle), Look) && Next(Sched(BUSY, Idle), Look) == Sched(BUSY, Saw(Some(1)))
    ensures var s := Sched(BUSY, Saw(Some(1))); Enabled(s, QUEUED_AGAIN) && Next(s, QUEUED_AGAIN) == Sched(AGAIN, Saw(Some(1)))
    ensures var s := Sched(AGAIN, Saw(Some(1))); Enabled(s, PeerGone(0, true)) && Next(s, PeerGone(0, true)) == Sched(LEFT, Idle)
  {
    hide NextPending, UpdatePeerStates, UpdatePeerList, Without;
    RefreshedWithBoth();
    SelectionsOfGone();
    QueuedAgain();
  }

  lemma SelectionsOfGone()
    ensures NextPending(BOTH) == BUSY && NextPending(Without(AGAIN, 1)) == LEFT
  {
    assert BOTH.queue[1..] == [2] && AGAIN.queue[1..] == [1];
    assert Without(AGAIN, 1).states == map[2 := Pending];
  }

  lemma QueuedAgain()
    ensures UpdatePeerStates(BUSY, 1, CatchUpStatus, Direct, PendingBlock) == AGAIN
  {
    assert BUSY.queue + [1] == [2, 1];
  }

  lemma ReachedState(steps: seq<Step>, s: Sched)
    requires Reaches(steps, s)
    ensures Legal(INIT, steps) && Exec(INIT, steps) == s
  {
  }
}
