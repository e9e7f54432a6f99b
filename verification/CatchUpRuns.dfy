/**
  The poll thread and the thread handling inbound consensus messages work on one catch-up list.
  Each locked section is one atomic step; between two of its sections the poll thread holds a
  snapshot of the slot that may be out of date.
 */
module CatchUpRuns {
  import opened Common
  import opened Consensus
  import opened CatchUp

  /** Where the poll thread is: between rounds, or holding the slot it saw. */
  datatype PollThread = Idle | Saw(slot: Option<PeerId>)

  datatype Sched = Sched(peers: Peers, poll: PollThread)

  const INIT := Sched(NO_PEERS, Idle)

  datatype Step =
    // the poll thread
    | Refresh(ids: seq<PeerId>)                     // the connected peers have changed
    | Regenesis(order: seq<PeerId>)                 // a new genesis block: all peers are to be caught up with
    | Look                                          // read the slot and release the lock
    | StillConnected                                // the peer in the slot seen is connected, timed out or not
    | PeerGone(now: nat, sent: bool)                // the peer in the slot seen is not connected any more
    | NobodySeen(now: nat, sent: bool)              // the slot seen was empty
    | Shutdown
    // the thread of inbound consensus messages
    | Inbound(src: PeerId, variant: PacketType, mode: DistributionMode, answer: Response)

  ghost predicate Enabled(s: Sched, t: Step) {
    match t
    case Refresh(_) => s.poll == Idle
    case Regenesis(order) => s.poll == Idle && Enumerates(order, s.peers)
    case Look => s.poll == Idle
    case StillConnected => s.poll.Saw? && s.poll.slot.Some?
    case PeerGone(_, _) => s.poll.Saw? && s.poll.slot.Some?
    case NobodySeen(_, _) => s.poll == Saw(None)
    case Shutdown => s.poll == Idle
    case Inbound(_, _, _, _) => true
  }

  function Next(s: Sched, t: Step): Sched {
    match t
    case Refresh(ids) => s.(peers := UpdatePeerList(s.peers, ids))
    case Regenesis(order) => s.(peers := MarkAllPending(s.peers, order))
    case Look => s.(poll := Saw(s.peers.slot))
    case StillConnected => s.(poll := Idle)
    case PeerGone(now, sent) =>
      if s.poll.Saw? && s.poll.slot.Some? then Sched(TryCatchUp(Without(s.peers, s.poll.slot.value), now, sent), Idle) else s
    case NobodySeen(now, sent) => Sched(TryCatchUp(s.peers, now, sent), Idle)
    case Shutdown => s.(peers := NO_PEERS.(stamp := s.peers.stamp))
    case Inbound(src, variant, mode, answer) => s.(peers := UpdatePeerStates(s.peers, src, variant, mode, answer))
  }

  function Exec(s: Sched, steps: seq<Step>): Sched {
    if steps == [] then s else Next(Exec(s, steps[..|steps| - 1]), steps[|steps| - 1])
  }

  ghost predicate Legal(s: Sched, steps: seq<Step>) {
    forall i :: 0 <= i < |steps| ==> Enabled(Exec(s, steps[..i]), steps[i])
  }

  /**
    The list is consistent, and what the poll thread saw in the slot is still there or the slot
    has been emptied: only the poll thread ever fills it.
   */
  ghost predicate Inv(s: Sched) {
    && Consistent(s.peers)
    && (s.poll.Saw? ==> s.peers.slot == s.poll.slot || s.peers.slot == None)
  }

  lemma StepKeepsInv(s: Sched, t: Step)
    requires Inv(s) && Enabled(s, t)
    ensures Inv(Next(s, t))
  {
    match t
    case Refresh(ids) => UpdatePeerListCorrect(s.peers, ids);
    case Regenesis(order) => MarkAllPendingConsistent(s.peers, order);
    case Look =>
    case StillConnected =>
    case PeerGone(now, sent) =>
      WithoutConsistent(s.peers, s.poll.slot.value);
      TryCatchUpConsistent(Without(s.peers, s.poll.slot.value), now, sent);
    case NobodySeen(now, sent) => TryCatchUpConsistent(s.peers, now, sent);
    case Shutdown =>
    case Inbound(src, variant, mode, answer) =>
      UpdatePeerStatesConsistent(s.peers, src, variant, mode, answer);
  }

  lemma LegalPrefix(s: Sched, steps: seq<Step>)
    requires Legal(s, steps) && steps != []
    ensures Legal(s, steps[..|steps| - 1]) && Enabled(Exec(s, steps[..|steps| - 1]), steps[|steps| - 1])
  {
    var prev := steps[..|steps| - 1];
    assert forall i :: 0 <= i < |prev| ==> prev[..i] == steps[..i] && prev[i] == steps[i];
  }

  lemma ExtendRun(s: Sched, steps: seq<Step>, t: Step)
    requires Legal(s, steps) && Enabled(Exec(s, steps), t)
    ensures Legal(s, steps + [t]) && Exec(s, steps + [t]) == Next(Exec(s, steps), t)
  {
    var all := steps + [t];
    assert all[..|all| - 1] == steps;
    forall i | 0 <= i < |all| ensures Enabled(Exec(s, all[..i]), all[i]) {
      if i < |steps| {
        assert all[..i] == steps[..i] && all[i] == steps[i];
      }
    }
  }

  /** Safety over every interleaving. */
  lemma {:induction false} RunKeepsInv(s: Sched, steps: seq<Step>)
    requires Inv(s) && Legal(s, steps)
    ensures Inv(Exec(s, steps))
    decreases |steps|
  {
    if steps == [] {
    } else {
      var prev := steps[..|steps| - 1];
      LegalPrefix(s, steps);
      RunKeepsInv(s, prev);
      StepKeepsInv(Exec(s, prev), steps[|steps| - 1]);
    }
  }

  /** In every reachable state the list is consistent. */
  lemma ReachableConsistent(steps: seq<Step>)
    requires Legal(INIT, steps)
    ensures Consistent(Exec(INIT, steps).peers)
  {
    RunKeepsInv(INIT, steps);
  }

  // ----- bounded waiting

  /** The first place of a peer in the queue. */
  function Position(q: seq<PeerId>, id: PeerId): (k: nat)
    requires id in q
    ensures k < |q| && q[k] == id && id !in q[..k]
  {
    if q[0] == id then 0 else 1 + Position(q[1..], id)
  }

  lemma PositionUnique(q: seq<PeerId>, id: PeerId, k: nat)
    requires k < |q| && q[k] == id && id !in q[..k]
    ensures Position(q, id) == k
  {
    var j := Position(q, id);
    assert forall i :: 0 <= i < Min(j, k) ==> q[i] == q[..k][i] == q[..j][i];
  }

  lemma PositionOfPrefix(q: seq<PeerId>, r: seq<PeerId>, id: PeerId)
    requires q <= r && id in q
    ensures Position(r, id) == Position(q, id)
  {
    var k := Position(q, id);
    assert r[..k] == q[..k];
    PositionUnique(r, id, k);
  }

  lemma {:induction false} PositionRetained(q: seq<PeerId>, ids: seq<PeerId>, id: PeerId)
    requires id in q && id in ids
    ensures id in Retain(q, ids) && Position(Retain(q, ids), id) <= Position(q, id)
    decreases |q|
  {
    RetainKeeps(q, ids, id);
    if q[0] == id {
    } else {
      PositionRetained(q[1..], ids, id);
      var r := Retain(q[1..], ids);
      assert Retain(q, ids) == (if q[0] in ids then [q[0]] else []) + r;
      if q[0] in ids {
        assert ([q[0]] + r)[1..] == r;
      } else {
        assert Retain(q, ids) == r;
      }
    }
  }

  /** A selection either picks the waiting peer or brings it nearer to the front. */
  lemma {:induction false} NextPendingAdvances(p: Peers, id: PeerId)
    requires Has(p, id, Pending) && id in p.queue
    ensures var q := NextPending(p);
            q.slot == Some(id)
            || (Has(q, id, Pending) && id in q.queue && Position(q.queue, id) < Position(p.queue, id))
    decreases |p.queue|
  {
    if Has(p, p.queue[0], Pending) {
    } else {
      NextPendingAdvances(p.(queue := p.queue[1..]), id);
    }
  }

  /** The steps that select a peer, and the list they select from. */
  predicate Selects(t: Step) {
    t.PeerGone? || t.NobodySeen?
  }

  function SelectsFrom(s: Sched, t: Step): Peers {
    if t.PeerGone? && s.poll.Saw? && s.poll.slot.Some? then Without(s.peers, s.poll.slot.value) else s.peers
  }

  predicate Picks(s: Sched, t: Step, id: PeerId) {
    Selects(t) && NextPending(SelectsFrom(s, t)).slot == Some(id)
  }

  function Selections(steps: seq<Step>): nat {
    if steps == [] then 0
    else Selections(steps[..|steps| - 1]) + (if Selects(steps[|steps| - 1]) then 1 else 0)
  }

  /** A step that neither disconnects the peer nor reports that we are up to date with it. */
  predicate Undisturbed(s: Sched, t: Step, id: PeerId) {
    match t
    case Refresh(ids) => id in ids
    case Shutdown => false
    case PeerGone(_, _) => s.poll != Saw(Some(id))
    case Inbound(src, variant, _, answer) => !(src == id && variant == CatchUpStatus && answer == Success)
    case _ => true
  }

  lemma RefreshAdvances(p: Peers, ids: seq<PeerId>, id: PeerId)
    requires Consistent(p) && Has(p, id, Pending) && id in ids
    ensures var q := UpdatePeerList(p, ids);
            Has(q, id, Pending) && id in q.queue && Position(q.queue, id) <= Position(p.queue, id)
  {
    UpdatePeerListCorrect(p, ids);
    ForgetConsistent(p, ids);
    AddNewConsistent(Forget(p, ids), ids);
    PositionRetained(p.queue, ids, id);
    PositionOfPrefix(Retain(p.queue, ids), UpdatePeerList(p, ids).queue, id);
  }

  /** While a peer waits, no step moves it back, and every selection that passes it over moves it forward. */
  lemma StepAdvances(s: Sched, t: Step, id: PeerId)
    requires Inv(s) && Enabled(s, t) && Has(s.peers, id, Pending)
    requires Undisturbed(s, t, id) && !Picks(s, t, id)
    ensures var s' := Next(s, t);
            && Has(s'.peers, id, Pending) && id in s'.peers.queue
            && Position(s'.peers.queue, id) + (if Selects(t) then 1 else 0) <= Position(s.peers.queue, id)
  {
    match t
    case Refresh(ids) => RefreshAdvances(s.peers, ids, id);
    case Regenesis(order) => PositionOfPrefix(s.peers.queue, s.peers.queue + order, id);
    case PeerGone(now, sent) => NextPendingAdvances(SelectsFrom(s, t), id);
    case NobodySeen(now, sent) => NextPendingAdvances(SelectsFrom(s, t), id);
    case Inbound(src, _, _, _) => PositionOfPrefix(s.peers.queue, s.peers.queue + [src], id);
    case _ =>
  }

  lemma {:induction false} RunAdvances(s: Sched, steps: seq<Step>, id: PeerId)
    requires Inv(s) && Legal(s, steps) && Has(s.peers, id, Pending)
    requires forall i :: 0 <= i < |steps| ==> Undisturbed(Exec(s, steps[..i]), steps[i], id)
    requires forall i :: 0 <= i < |steps| ==> !Picks(Exec(s, steps[..i]), steps[i], id)
    ensures var s' := Exec(s, steps);
            && Has(s'.peers, id, Pending) && id in s'.peers.queue
            && Position(s'.peers.queue, id) + Selections(steps) <= Position(s.peers.queue, id)
    decreases |steps|
  {
    if steps == [] {
    } else {
      var prev := steps[..|steps| - 1];
      LegalPrefix(s, steps);
      assert forall i :: 0 <= i < |prev| ==> prev[..i] == steps[..i] && prev[i] == steps[i];
      RunAdvances(s, prev, id);
      RunKeepsInv(s, prev);
      StepAdvances(Exec(s, prev), steps[|steps| - 1], id);
    }
  }

  /**
    Bounded waiting: in every run in which a pending peer at position k stays connected and
    we do not become up to date with it, one of the first k + 1 selections picks it.
   */
  lemma WaitingPeerIsPicked(s: Sched, steps: seq<Step>, id: PeerId)
    requires Inv(s) && Legal(s, steps) && Has(s.peers, id, Pending)
    requires forall i :: 0 <= i < |steps| ==> Undisturbed(Exec(s, steps[..i]), steps[i], id)
    requires Selections(steps) > Position(s.peers.queue, id)
    ensures exists i :: 0 <= i < |steps| && Picks(Exec(s, steps[..i]), steps[i], id)
  {
    if forall i :: 0 <= i < |steps| ==> !Picks(Exec(s, steps[..i]), steps[i], id) {
      RunAdvances(s, steps, id);
    }
  }

  /** A message from `id` that leaves it pending: it says that we are behind, or may be, and it was not being caught up with. */
  predicate ReportsBehind(p: Peers, t: Step, id: PeerId) {
    && t.Inbound? && t.src == id
    && (|| (t.variant == CatchUpStatus && (t.answer == PendingBlock || t.answer == PendingFinalization))
        || (NewsIfUpToDate(t.variant, t.mode, t.answer) && (Has(p, id, UpToDate) || Has(p, id, Pending))))
  }

  /**
    From the message to the selection: a peer that reports that we are behind is pending from
    then on and is picked by one of the next selections, at most one more than there were
    entries in the queue, as long as it stays connected and we do not become up to date with it.
   */
  lemma BehindIsPicked(s: Sched, t: Step, steps: seq<Step>, id: PeerId)
    requires Inv(s) && ReportsBehind(s.peers, t, id)
    requires Legal(Next(s, t), steps)
    requires forall i :: 0 <= i < |steps| ==> Undisturbed(Exec(Next(s, t), steps[..i]), steps[i], id)
    requires Selections(steps) > |s.peers.queue|
    ensures Has(Next(s, t).peers, id, Pending)
    ensures exists i :: 0 <= i < |steps| && Picks(Exec(Next(s, t), steps[..i]), steps[i], id)
  {
    hide Exec, Legal, Undisturbed, Picks, Selections, UpdatePeerStates;
    UpdatePeerStatesEffect(s.peers, id, t.variant, t.mode, t.answer);
    StepKeepsInv(s, t);
    var s' := Next(s, t);
    assert id in s'.peers.queue && |s'.peers.queue| <= |s.peers.queue| + 1;
    WaitingPeerIsPicked(s', steps, id);
  }
}
