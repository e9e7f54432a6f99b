/**
  The catch-up list: the status of every peer, the one peer being caught up with, and a lazy
  queue of pending peers that may hold entries which are no longer pending.
 */
module CatchUp {
  import opened Common
  import opened Consensus

  datatype Status = UpToDate | Pending | CatchingUp

  datatype Peers = Peers(states: map<PeerId, Status>, slot: Option<PeerId>, stamp: nat, queue: seq<PeerId>)

  const NO_PEERS := Peers(map[], None, 0, [])

  predicate Has(p: Peers, id: PeerId, s: Status) {
    id in p.states && p.states[id] == s
  }

  /**
    The peers marked as catching up are exactly the one in the slot, and every pending peer is
    somewhere in the queue.
   */
  ghost predicate Consistent(p: Peers) {
    && (forall id: PeerId :: Has(p, id, CatchingUp) <==> p.slot == Some(id))
    && (forall id: PeerId :: Has(p, id, Pending) ==> id in p.queue)
  }

  // ----- what the operations do, on values

  /** Drop queue entries up to the first peer that is really pending and put that one into the slot. */
  function NextPending(p: Peers): Peers
    decreases |p.queue|
  {
    if p.queue == [] then p.(slot := None)
    else if Has(p, p.queue[0], Pending) then
      p.(states := p.states[p.queue[0] := CatchingUp], slot := Some(p.queue[0]), queue := p.queue[1..])
    else NextPending(p.(queue := p.queue[1..]))
  }

  /** Mark the up-to-date peers as pending; `order` is the order in which the map yields them. */
  function MarkAllPending(p: Peers, order: seq<PeerId>): Peers {
    p.(states := map id | id in p.states :: if p.states[id] == UpToDate then Pending else p.states[id],
       queue := p.queue + order)
  }

  /** Iterating over the map yields every up-to-date peer once. */
  ghost predicate Enumerates(order: seq<PeerId>, p: Peers) {
    && Distinct(order)
    && forall id: PeerId :: id in order <==> Has(p, id, UpToDate)
  }

  function Retain(q: seq<PeerId>, ids: seq<PeerId>): seq<PeerId> {
    if q == [] then []
    else (if q[0] in ids then [q[0]] else []) + Retain(q[1..], ids)
  }

  /** Forget everything about peers that are not in `ids`. */
  function Forget(p: Peers, ids: seq<PeerId>): Peers {
    var states := map id | id in p.states && id in ids :: p.states[id];
    p.(states := states,
       queue := Retain(p.queue, ids),
       slot := if p.slot.Some? && p.slot.value !in states then None else p.slot)
  }

  /** Add the peers in `ids` that are not known yet, as pending. */
  function AddNew(p: Peers, ids: seq<PeerId>): Peers
    decreases |ids|
  {
    if ids == [] then p
    else if ids[0] in p.states then AddNew(p, ids[1..])
    else AddNew(p.(states := p.states[ids[0] := Pending], queue := p.queue + [ids[0]]), ids[1..])
  }

  function UpdatePeerList(p: Peers, ids: seq<PeerId>): Peers {
    AddNew(Forget(p, ids), ids)
  }

  function Without(p: Peers, id: PeerId): Peers {
    p.(slot := None, states := p.states - {id})
  }

  /** Try to start catching up at time `now`; `sent` tells whether the request could be sent. */
  function TryCatchUp(p: Peers, now: nat, sent: bool): Peers {
    var q := NextPending(p);
    if q.slot.None? then q
    else if sent then q.(stamp := now)
    else Without(q.(stamp := now), q.slot.value)
  }

  function ClearSlot(p: Peers, id: PeerId): Peers {
    if p.slot == Some(id) then p.(slot := None) else p
  }

  function Push(p: Peers, id: PeerId): Peers {
    p.(states := p.states[id := Pending], queue := p.queue + [id])
  }

  /** What a consensus message of peer `src` and the answer to it do to the list. */
  function UpdatePeerStates(p: Peers, src: PeerId, variant: PacketType, mode: DistributionMode, answer: Response): Peers {
    if variant == CatchUpStatus then
      match answer
      case Success => ClearSlot(p.(states := p.states[src := UpToDate]), src)
      case PendingBlock => ClearSlot(if Has(p, src, Pending) then p else Push(p, src), src)
      case PendingFinalization => ClearSlot(if Has(p, src, Pending) then p else Push(p, src), src)
      case ContinueCatchUp => if Has(p, src, UpToDate) then Push(p, src) else p
      case _ => p
    else if variant in {Block, FinalizationRecord, FinalizationMessage} && mode == Broadcast && IsPending(answer) then
      if Has(p, src, UpToDate) then Push(p, src) else p
    else p
  }

  // ----- what they mean for each peer

  function StatusOf(p: Peers, id: PeerId): Option<Status> {
    if id in p.states then Some(p.states[id]) else None
  }

  /** The first place in the queue that holds a really pending peer, or the length of the queue. */
  ghost predicate FirstPendingAt(p: Peers, k: nat) {
    && k <= |p.queue|
    && (forall i :: 0 <= i < k ==> !Has(p, p.queue[i], Pending))
    && (k < |p.queue| ==> Has(p, p.queue[k], Pending))
  }

  function Selected(p: Peers, k: nat): Option<PeerId> {
    if k < |p.queue| then Some(p.queue[k]) else None
  }

  lemma {:induction false} FindFirstPending(p: Peers) returns (k: nat)
    ensures FirstPendingAt(p, k)
    decreases |p.queue|
  {
    if p.queue == [] || Has(p, p.queue[0], Pending) {
      k := 0;
    } else {
      var rest := p.(queue := p.queue[1..]);
      assert forall id, s :: Has(rest, id, s) == Has(p, id, s);
      var j := FindFirstPending(rest);
      k := j + 1;
      assert forall i :: 1 <= i < |p.queue| ==> p.queue[i] == rest.queue[i - 1];
    }
  }

  /**
    A selection takes the first pending peer of the queue, with all entries before it, marks it
    as catching up and puts it into the slot; all other peers keep their status. Without any, the
    queue and the slot are left empty.
   */
  lemma {:induction false} NextPendingEffect(p: Peers, k: nat)
    requires FirstPendingAt(p, k)
    ensures var q := NextPending(p);
            && q.stamp == p.stamp
            && q.slot == Selected(p, k)
            && (forall id: PeerId :: q.slot != Some(id) ==> StatusOf(q, id) == StatusOf(p, id))
            && (if k < |p.queue| then
                  q.queue == p.queue[k + 1..] && StatusOf(q, p.queue[k]) == Some(CatchingUp)
                else q.queue == [])
    decreases |p.queue|
  {
    if p.queue == [] {
    } else if k == 0 {
    } else {
      var rest := p.(queue := p.queue[1..]);
      assert forall id, s :: Has(rest, id, s) == Has(p, id, s);
      assert forall i :: 1 <= i < |p.queue| ==> p.queue[i] == rest.queue[i - 1];
      assert !Has(p, p.queue[0], Pending);
      NextPendingEffect(rest, k - 1);
      if k < |p.queue| {
        assert rest.queue[k..] == p.queue[k + 1..];
      }
    }
  }

  /**
    An attempt to catch up: the selected peer is being caught up with since `now`, or, if the
    request could not be sent, is forgotten and the slot is empty.
   */
  lemma TryCatchUpEffect(p: Peers, now: nat, sent: bool, k: nat)
    requires FirstPendingAt(p, k)
    ensures var q := TryCatchUp(p, now, sent);
            if k == |p.queue| then
              q.slot == None && q.queue == [] && q.stamp == p.stamp && forall id: PeerId :: StatusOf(q, id) == StatusOf(p, id)
            else
              var id := p.queue[k];
              && q.queue == p.queue[k + 1..] && q.stamp == now
              && (forall x: PeerId :: x != id ==> StatusOf(q, x) == StatusOf(p, x))
              && (sent ==> q.slot == Some(id) && StatusOf(q, id) == Some(CatchingUp))
              && (!sent ==> q.slot == None && id !in q.states)
  {
    NextPendingEffect(p, k);
  }

  /** No peer is up to date afterwards: those that were are pending and queued, in the order of the map. */
  lemma MarkAllPendingEffect(p: Peers, order: seq<PeerId>)
    requires Enumerates(order, p)
    ensures var q := MarkAllPending(p, order);
            && q.queue == p.queue + order && q.slot == p.slot && q.stamp == p.stamp
            && (forall id :: Has(p, id, UpToDate) ==> Has(q, id, Pending) && id in q.queue)
            && (forall id :: !Has(p, id, UpToDate) ==> StatusOf(q, id) == StatusOf(p, id))
  {
  }

  /**
    What a message says about its sender. Success on a catch-up status: we are up to date with
    it. A pending block or finalization on one: we are behind. A request to go on catching up,
    or a broadcast block, finalization record or finalization message that consensus cannot
    place yet: we are behind if we thought to be up to date. Nothing else counts.
   */
  lemma UpdatePeerStatesEffect(p: Peers, src: PeerId, variant: PacketType, mode: DistributionMode, answer: Response)
    ensures var q := UpdatePeerStates(p, src, variant, mode, answer);
            && (forall id: PeerId :: id != src ==> StatusOf(q, id) == StatusOf(p, id))
            && q.stamp == p.stamp
            && (variant == CatchUpStatus && answer == Success ==>
                  && Has(q, src, UpToDate) && q.queue == p.queue
                  && q.slot == (if p.slot == Some(src) then None else p.slot))
            && (variant == CatchUpStatus && (answer == PendingBlock || answer == PendingFinalization) ==>
                  && Has(q, src, Pending)
                  && q.queue == (if Has(p, src, Pending) then p.queue else p.queue + [src])
                  && q.slot == (if p.slot == Some(src) then None else p.slot))
            && (NewsIfUpToDate(variant, mode, answer) && Has(p, src, UpToDate) ==>
                  Has(q, src, Pending) && q.queue == p.queue + [src] && q.slot == p.slot)
            && (NewsIfUpToDate(variant, mode, answer) && !Has(p, src, UpToDate) ==> q == p)
            && (!NewsOnStatus(variant, answer) && !NewsIfUpToDate(variant, mode, answer) ==> q == p)
  {
    var q := UpdatePeerStates(p, src, variant, mode, answer);
    assert forall x, s :: x != src ==> Has(q, x, s) == Has(p, x, s);
    if variant == CatchUpStatus && (answer == PendingBlock || answer == PendingFinalization) {
      assert Has(q, src, Pending);
    }
  }

  /** Answers to a catch-up status that settle where we stand with its sender. */
  predicate NewsOnStatus(variant: PacketType, answer: Response) {
    variant == CatchUpStatus && (answer == Success || answer == PendingBlock || answer == PendingFinalization)
  }

  /** The messages that make an up-to-date peer pending. */
  predicate NewsIfUpToDate(variant: PacketType, mode: DistributionMode, answer: Response) {
    || (variant == CatchUpStatus && answer == ContinueCatchUp)
    || (mode == Broadcast && (variant == Block || variant == FinalizationRecord || variant == FinalizationMessage)
        && (answer == PendingBlock || answer == PendingFinalization || answer == InvalidGenesisIndex || answer == Unverifiable))
  }

  // ----- what they preserve

  /** Selecting is safe only when nobody is being caught up with: then the list stays consistent. */
  lemma {:induction false} NextPendingConsistent(p: Peers)
    requires Consistent(p) && p.slot.None?
    ensures Consistent(NextPending(p))
    ensures NextPending(p).states.Keys == p.states.Keys
    decreases |p.queue|
  {
    if p.queue == [] {
    } else {
      var p' := p.(queue := p.queue[1..]);
      assert p.queue == [p.queue[0]] + p'.queue;
      if Has(p, p.queue[0], Pending) {
        var q := NextPending(p);
        assert forall id :: Has(q, id, CatchingUp) <==> id == p.queue[0] || Has(p, id, CatchingUp);
        assert forall id :: Has(q, id, Pending) ==> Has(p, id, Pending) && id != p.queue[0];
      } else {
        assert forall id, s :: Has(p', id, s) == Has(p, id, s);
        NextPendingConsistent(p');
      }
    }
  }

  lemma WithoutConsistent(p: Peers, id: PeerId)
    requires Consistent(p) && (p.slot.Some? ==> p.slot.value == id)
    ensures Consistent(Without(p, id)) && Without(p, id).slot.None?
  {
    var q := Without(p, id);
    assert forall x, s :: Has(q, x, s) <==> x != id && Has(p, x, s);
  }

  lemma TryCatchUpConsistent(p: Peers, now: nat, sent: bool)
    requires Consistent(p) && p.slot.None?
    ensures Consistent(TryCatchUp(p, now, sent))
  {
    NextPendingConsistent(p);
    var q := NextPending(p).(stamp := now);
    assert forall id, s :: Has(q, id, s) == Has(NextPending(p), id, s);
    if q.slot.Some? {
      WithoutConsistent(q, q.slot.value);
    }
  }

  lemma MarkAllPendingConsistent(p: Peers, order: seq<PeerId>)
    requires Consistent(p) && Enumerates(order, p)
    ensures Consistent(MarkAllPending(p, order))
  {
    var q := MarkAllPending(p, order);
    assert forall id :: Has(q, id, CatchingUp) == Has(p, id, CatchingUp);
    assert forall id :: Has(q, id, Pending) <==> Has(p, id, Pending) || Has(p, id, UpToDate);
  }

  lemma {:induction false} RetainKeeps(q: seq<PeerId>, ids: seq<PeerId>, id: PeerId)
    ensures id in Retain(q, ids) <==> id in q && id in ids
  {
    if q == [] {
    } else {
      RetainKeeps(q[1..], ids, id);
      assert q == [q[0]] + q[1..];
    }
  }

  /** Forgetting keeps the list consistent; from any list, no more peers are left than are given. */
  lemma ForgetConsistent(p: Peers, ids: seq<PeerId>)
    ensures Consistent(p) ==> Consistent(Forget(p, ids))
    ensures |Forget(p, ids).states| <= |ids|
  {
    var q := Forget(p, ids);
    forall id ensures id in q.queue <==> id in p.queue && id in ids {
      RetainKeeps(p.queue, ids, id);
    }
    assert forall id, s :: Has(q, id, s) <==> Has(p, id, s) && id in ids;
    FewerThanListed(q.states.Keys, ids);
  }

  lemma {:induction false} FewerThanListed(s: set<PeerId>, ids: seq<PeerId>)
    requires forall id :: id in s ==> id in ids
    ensures |s| <= |ids|
    decreases |ids|
  {
    if ids == [] {
      assert s == {};
    } else {
      FewerThanListed(s - {ids[0]}, ids[1..]);
    }
  }

  lemma {:induction false} AddNewConsistent(p: Peers, ids: seq<PeerId>)
    requires Consistent(p)
    ensures Consistent(AddNew(p, ids))
    ensures AddNew(p, ids).states.Keys == p.states.Keys + (set id | id in ids)
    ensures forall id :: id in p.states ==> AddNew(p, ids).states[id] == p.states[id]
    ensures p.queue <= AddNew(p, ids).queue
    decreases |ids|
  {
    if ids == [] {
    } else {
      assert ids == [ids[0]] + ids[1..];
      if ids[0] in p.states {
        AddNewConsistent(p, ids[1..]);
      } else {
        PushConsistent(p, ids[0]);
        AddNewConsistent(Push(p, ids[0]), ids[1..]);
      }
    }
  }

  lemma PushConsistent(p: Peers, id: PeerId)
    requires Consistent(p)
    ensures Consistent(ClearSlot(Push(p, id), id))
    ensures p.slot != Some(id) ==> Consistent(Push(p, id))
  {
    var q := Push(p, id);
    assert forall x, s :: x != id ==> Has(q, x, s) == Has(p, x, s);
    assert Has(q, id, Pending) && id in q.queue;
  }

  /**
    Refreshing the list: the known peers become exactly the given ones, statuses of known peers
    are kept, the size subtraction for newly added peers does not underflow, and the list stays
    consistent.
   */
  lemma UpdatePeerListCorrect(p: Peers, ids: seq<PeerId>)
    requires Consistent(p)
    ensures var q := UpdatePeerList(p, ids);
            && Consistent(q)
            && q.states.Keys == (set id | id in ids)
            && (forall id :: id in ids && id in p.states ==> q.states[id] == p.states[id])
            && (forall id :: id in ids && id !in p.states ==> q.states[id] == Pending)
            && (q.slot == if p.slot.Some? && p.slot.value in ids then p.slot else None)
    ensures |Forget(p, ids).states| <= |ids|
  {
    ForgetConsistent(p, ids);
    var f := Forget(p, ids);
    AddNewConsistent(f, ids);
    assert f.states.Keys <= (set id | id in ids);
    assert p.slot.Some? ==> Has(p, p.slot.value, CatchingUp);
    AddedArePending(f, ids);
  }

  lemma {:induction false} AddedArePending(p: Peers, ids: seq<PeerId>)
    ensures AddNew(p, ids).slot == p.slot
    ensures forall id :: id in AddNew(p, ids).states && id !in p.states ==> AddNew(p, ids).states[id] == Pending
    ensures forall id :: id in p.states ==> id in AddNew(p, ids).states && AddNew(p, ids).states[id] == p.states[id]
    decreases |ids|
  {
    if ids == [] {
    } else {
      if ids[0] in p.states {
        AddedArePending(p, ids[1..]);
      } else {
        AddedArePending(Push(p, ids[0]), ids[1..]);
      }
    }
  }

  lemma UpdatePeerStatesConsistent(p: Peers, src: PeerId, variant: PacketType, mode: DistributionMode, answer: Response)
    requires Consistent(p)
    ensures Consistent(UpdatePeerStates(p, src, variant, mode, answer))
  {
    PushConsistent(p, src);
    var u := p.(states := p.states[src := UpToDate]);
    assert forall x, s :: Has(u, x, s) <==> if x == src then s == UpToDate else Has(p, x, s);
    assert Has(p, src, UpToDate) ==> p.slot != Some(src);
    assert Has(p, src, Pending) ==> ClearSlot(p, src) == p;
  }
}
