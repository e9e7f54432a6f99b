/** The catch-up list as the node keeps it: fields updated in place, under one lock. */
module PeerLists {
  import opened Common
  import opened Consensus
  import opened CatchUp
  import opened CatchUpRuns

  class PeerList {
    var peerStates: map<PeerId, Status>
    var catchUpStamp: nat
    var catchUpPeer: Option<PeerId>
    var pendingQueue: seq<PeerId>

    ghost function Value(): Peers
      reads this
    {
      Peers(peerStates, catchUpPeer, catchUpStamp, pendingQueue)
    }

    constructor ()
      ensures Value() == NO_PEERS
    {
      peerStates, catchUpStamp, catchUpPeer, pendingQueue := map[], 0, None, [];
    }

    method PopFront() returns (next: Option<PeerId>)
      modifies this`pendingQueue
      ensures old(pendingQueue) == [] ==> next == None && pendingQueue == []
      ensures old(pendingQueue) != [] ==> next == Some(old(pendingQueue)[0]) && pendingQueue == old(pendingQueue)[1..]
    {
      if pendingQueue == [] {
        return None;
      }
      next := Some(pendingQueue[0]);
      pendingQueue := pendingQueue[1..];
    }

    /** Pull the next really pending peer from the queue and mark it as catching up. */
    method Next() returns (next: Option<PeerId>)
      modifies this
      ensures Value() == NextPending(old(Value()))
      ensures next == catchUpPeer
    {
      next := PopFront();
      while next.Some?
        invariant peerStates == old(peerStates) && catchUpPeer == old(catchUpPeer) && catchUpStamp == old(catchUpStamp)
        invariant next.None? ==> pendingQueue == []
        invariant NextPending(old(Value()))
                  == NextPending(Value().(queue := if next.Some? then [next.value] + pendingQueue else []))
        decreases next.Some?, |pendingQueue|
      {
        var peer := next.value;
        assert ([peer] + pendingQueue)[1..] == pendingQueue;
        if peer in peerStates && peerStates[peer] == Pending {
          peerStates := peerStates[peer := CatchingUp];
          break;
        }
        next := PopFront();
      }
      catchUpPeer := next;
    }

    /** Mark all up-to-date peers as pending, in whatever order the map yields them. */
    method MarkAll() returns (ghost order: seq<PeerId>)
      modifies this`peerStates, this`pendingQueue
      ensures Enumerates(order, old(Value()))
      ensures Value() == MarkAllPending(old(Value()), order)
    {
      order := [];
      var todo := peerStates.Keys;
      while todo != {}
        invariant todo <= peerStates.Keys == old(peerStates.Keys)
        invariant forall id :: id in todo ==> peerStates[id] == old(peerStates)[id]
        invariant forall id :: id in peerStates && id !in todo ==>
                    peerStates[id] == if old(peerStates)[id] == UpToDate then Pending else old(peerStates)[id]
        invariant forall id: PeerId :: id in order <==> Has(old(Value()), id, UpToDate) && id !in todo
        invariant Distinct(order)
        invariant pendingQueue == old(pendingQueue) + order
        decreases |todo|
      {
        var id :| id in todo;
        if peerStates[id] == UpToDate {
          peerStates := peerStates[id := Pending];
          pendingQueue := pendingQueue + [id];
          order := order + [id];
        }
        todo := todo - {id};
      }
    }

    method Clear()
      modifies this`peerStates, this`catchUpPeer, this`pendingQueue
      ensures Value() == NO_PEERS.(stamp := old(catchUpStamp))
    {
      peerStates := map[];
      catchUpPeer := None;
      pendingQueue := [];
    }

    /** Bring the list in line with the connected peers `peerIds`. */
    method Update(peerIds: seq<PeerId>)
      modifies this`peerStates, this`catchUpPeer, this`pendingQueue
      ensures Value() == UpdatePeerList(old(Value()), peerIds)
      ensures old(Consistent(Value())) ==> Consistent(Value())
    {
      ghost var forgotten := Forget(Value(), peerIds);
      ForgetConsistent(Value(), peerIds);
      if Consistent(Value()) {
        UpdatePeerListCorrect(Value(), peerIds);
      }
      peerStates := map id | id in peerStates && id in peerIds :: peerStates[id];
      RetainQueue(peerIds);
      if catchUpPeer.Some? && catchUpPeer.value !in peerStates {
        catchUpPeer := None;
      }
      var newPeers: nat := |peerIds| - |peerStates|;
      for i := 0 to |peerIds|
        invariant AddNew(forgotten, peerIds) == AddNew(Value(), peerIds[i..])
      {
        var id := peerIds[i];
        assert peerIds[i..][1..] == peerIds[i + 1..];
        if id !in peerStates {
          peerStates := peerStates[id := Pending];
          pendingQueue := pendingQueue + [id];
        }
      }
    }

    method RetainQueue(peerIds: seq<PeerId>)
      modifies this`pendingQueue
      ensures pendingQueue == Retain(old(pendingQueue), peerIds)
    {
      var kept := [];
      for i := 0 to |pendingQueue|
        invariant kept + Retain(pendingQueue[i..], peerIds) == Retain(pendingQueue, peerIds)
      {
        assert pendingQueue[i..][1..] == pendingQueue[i + 1..];
        if pendingQueue[i] in peerIds {
          kept := kept + [pendingQueue[i]];
        }
      }
      pendingQueue := kept;
    }

    /** Try to catch up with the next pending peer; `canSend` tells whom a request can be sent to. */
    method Try(now: nat, canSend: PeerId -> bool)
      modifies this
      ensures Value() == TryCatchUp(old(Value()), now, var q := NextPending(old(Value())); q.slot.Some? && canSend(q.slot.value))
    {
      var next := Next();
      if next.Some? {
        var id := next.value;
        catchUpStamp := now;
        if !canSend(id) {
          catchUpPeer := None;
          peerStates := peerStates - {id};
        }
      }
    }

    /** The connection of the peer being caught up with is gone. */
    method DropAndTry(id: PeerId, now: nat, canSend: PeerId -> bool)
      modifies this
      ensures var p := Without(old(Value()), id);
              Value() == TryCatchUp(p, now, var q := NextPending(p); q.slot.Some? && canSend(q.slot.value))
    {
      catchUpPeer := None;
      peerStates := peerStates - {id};
      Try(now, canSend);
    }

    /** Record what a consensus message and the answer to it say about its sender. */
    method Record(src: PeerId, variant: PacketType, mode: DistributionMode, answer: Response)
      modifies this`peerStates, this`catchUpPeer, this`pendingQueue
      ensures Value() == UpdatePeerStates(old(Value()), src, variant, mode, answer)
    {
      if variant == CatchUpStatus {
        match answer {
          case Success =>
            peerStates := peerStates[src := UpToDate];
            if catchUpPeer == Some(src) {
              catchUpPeer := None;
            }
          case PendingBlock => MarkBehind(src);
          case PendingFinalization => MarkBehind(src);
          case ContinueCatchUp => MarkIfUpToDate(src);
          case _ =>
        }
      } else if variant in {Block, FinalizationRecord, FinalizationMessage} {
        if mode == Broadcast && IsPending(answer) {
          MarkIfUpToDate(src);
        }
      }
    }

    method MarkBehind(src: PeerId)
      modifies this`peerStates, this`catchUpPeer, this`pendingQueue
      ensures var p := old(Value()); Value() == ClearSlot(if Has(p, src, Pending) then p else Push(p, src), src)
    {
      var before := if src in peerStates then Some(peerStates[src]) else None;
      peerStates := peerStates[src := Pending];
      if before != Some(Pending) {
        pendingQueue := pendingQueue + [src];
      }
      if catchUpPeer == Some(src) {
        catchUpPeer := None;
      }
    }

    method MarkIfUpToDate(src: PeerId)
      modifies this`peerStates, this`pendingQueue
      ensures var p := old(Value()); Value() == if Has(p, src, UpToDate) then Push(p, src) else p
    {
      if src in peerStates && peerStates[src] == UpToDate {
        peerStates := peerStates[src := Pending];
        pendingQueue := pendingQueue + [src];
      }
    }

    // ----- the two threads

    /** The poll thread between rounds: a refresh, a new genesis block, a shutdown, or a look at the slot. */
    method BetweenRounds() returns (poll: PollThread, ghost t: Step)
      requires Consistent(Value())
      modifies this`peerStates, this`catchUpPeer, this`pendingQueue
      ensures Enabled(Sched(old(Value()), Idle), t)
      ensures Sched(Value(), poll) == CatchUpRuns.Next(Sched(old(Value()), Idle), t)
    {
      poll := Idle;
      if {
        case true =>
          var peerIds: seq<PeerId> := *;
          Update(peerIds);
          t := Refresh(peerIds);
        case true =>
          ghost var order := MarkAll();
          t := Regenesis(order);
        case true =>
          Clear();
          t := Shutdown;
        case true =>
          poll, t := Saw(catchUpPeer), Look;
      }
    }

    /** The poll thread with the slot it has seen: drop a peer that is gone, or find one to catch up with. */
    method CheckSlot(seen: Option<PeerId>, connected: bool, now: nat, canSend: PeerId -> bool) returns (ghost t: Step)
      modifies this
      ensures Enabled(Sched(old(Value()), Saw(seen)), t)
      ensures (t.NobodySeen? <==> seen.None?) && (t.StillConnected? <==> seen.Some? && connected)
      ensures t.PeerGone? <==> seen.Some? && !connected
      ensures t.PeerGone? || t.NobodySeen? ==> t.now == now
      ensures Sched(Value(), Idle) == CatchUpRuns.Next(Sched(old(Value()), Saw(seen)), t)
    {
      hide TryCatchUp, NextPending;
      if seen.Some? {
        if connected {
          return StillConnected;
        }
        ghost var q := NextPending(Without(Value(), seen.value));
        t := PeerGone(now, q.slot.Some? && canSend(q.slot.value));
        DropAndTry(seen.value, now, canSend);
      } else {
        ghost var q := NextPending(Value());
        t := NobodySeen(now, q.slot.Some? && canSend(q.slot.value));
        Try(now, canSend);
      }
    }

    /** The next locked section of either thread. */
    method Act(poll: PollThread) returns (poll': PollThread, ghost t: Step)
      requires Inv(Sched(Value(), poll))
      modifies this
      ensures Enabled(Sched(old(Value()), poll), t)
      ensures Sched(Value(), poll') == CatchUpRuns.Next(Sched(old(Value()), poll), t)
      ensures Inv(Sched(Value(), poll'))
    {
      hide UpdatePeerStates, Enabled;
      ghost var before := Sched(Value(), poll);
      if * {
        var src: PeerId, variant: PacketType, mode: DistributionMode, answer: Response := *, *, *, *;
        Record(src, variant, mode, answer);
        poll', t := poll, Inbound(src, variant, mode, answer);
        AnyTime(before, t);
      } else if poll == Idle {
        poll', t := BetweenRounds();
      } else {
        var connected: bool, now: nat, sent: bool := *, *, *;
        poll' := Idle;
        t := CheckSlot(poll.slot, connected, now, _ => sent);
      }
      StepKeepsInv(before, t);
    }

    /**
      Any number of locked sections, in any interleaving: what happens to the list is a run of
      the step machine, and the list is consistent at every moment.
     */
    method Interleave(n: nat) returns (poll: PollThread, ghost run: seq<Step>)
      requires Consistent(Value())
      modifies this
      ensures |run| == n && Legal(Sched(old(Value()), Idle), run)
      ensures Sched(Value(), poll) == Exec(Sched(old(Value()), Idle), run)
      ensures Consistent(Value())
    {
      hide Enabled, Legal, Exec, Consistent;
      ghost var start := Sched(Value(), Idle);
      poll, run := Idle, [];
      NoSteps(start);
      for i := 0 to n
        invariant |run| == i && Legal(start, run) && Sched(Value(), poll) == Exec(start, run)
        invariant Inv(Sched(Value(), poll))
      {
        ghost var t;
        poll, t := Act(poll);
        ExtendRun(start, run, t);
        run := run + [t];
      }
    }
  }

  lemma AnyTime(s: Sched, t: Step)
    requires t.Inbound?
    ensures Enabled(s, t)
  {
  }

  lemma NoSteps(s: Sched)
    ensures Legal(s, []) && Exec(s, []) == s
  {
  }
}
