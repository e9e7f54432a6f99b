/** Relaying does its work: what a node accepts travels on, and in the end reaches everybody. */
module FloodingReach {
  import opened Common
  import opened Consensus
  import opened Dedup
  import opened Flooding

  // ----- one node

  /**
    Arriving packets: what the queue of their kind holds is dropped; everything else is
    remembered there, among as many as the queue has room for, and waits for consensus. Catch-up
    statuses are not remembered.
   */
  lemma ReceiveEffect(cfg: Config, n: NodeState, p: Packet, queued: bool)
    ensures var n' := Receive(cfg, n, p, queued);
            var m, inbound := p.payload, if queued then n.inbound + [p] else n.inbound;
            match m.kind
            case FinalizationMessage =>
              n' == (if m in n.finalizations then n
                     else n.(finalizations := LastN(n.finalizations + [m], cfg.longSize), inbound := inbound))
            case Transaction =>
              n' == (if m in n.transactions then n
                     else n.(transactions := LastN(n.transactions + [m], cfg.longSize), inbound := inbound))
            case Block =>
              n' == (if m in n.blocks then n
                     else n.(blocks := LastN(n.blocks + [m], cfg.shortSize), inbound := inbound))
            case FinalizationRecord =>
              n' == (if m in n.finRecords then n
                     else n.(finRecords := LastN(n.finRecords + [m], cfg.shortSize), inbound := inbound))
            case CatchUpStatus => n' == n.(inbound := inbound)
  {
  }

  /** The kinds of packets and the answers that together let a packet be relayed. */
  predicate Relayable(kind: PacketType, answer: Response) {
    && (kind == Block || kind == Transaction || kind == FinalizationRecord || kind == FinalizationMessage)
    && (answer == Success || answer == PendingFinalization || answer == Asynchronous || (answer == PendingBlock && kind != Block))
  }

  /**
    Handling the `i`-th waiting request: exactly if it is relayable and relaying is not switched
    off, one packet goes to every peer except the one the request came from; nothing else does.
   */
  lemma HandleEffect(cfg: Config, s: Net, v: NodeId, i: nat, answer: Response, drop: bool)
    requires Enabled(cfg, s, Handle(v, i, answer, drop))
    ensures var s', p := Next(cfg, s, Handle(v, i, answer, drop)), s.nodes[v].inbound[i];
            && s'.nodes[v].inbound == s.nodes[v].inbound[..i] + s.nodes[v].inbound[i + 1..]
            && forall q :: s'.flight[q] == s.flight[q]
                 + if && !drop && Relayable(p.payload.kind, answer)
                      && q.src == v && q.payload == p.payload && q.dst in cfg.peers[v] && q.dst != p.src then 1 else 0
  {
    hide Sends, Relays, Relayable;
    var s', p := Next(cfg, s, Handle(v, i, answer, drop)), s.nodes[v].inbound[i];
    RelayedIff(p, answer, drop);
    forall q ensures Sends(cfg, v, p.payload, {p.src})[q]
                     == if q.src == v && q.payload == p.payload && q.dst in cfg.peers[v] && q.dst != p.src then 1 else 0 {
      SendsEffect(cfg, v, p.payload, {p.src}, q);
    }
    assert s'.flight == if Relays(p, answer, drop) then s.flight + Sends(cfg, v, p.payload, {p.src}) else s.flight;
  }

  lemma RelayedIff(p: Packet, answer: Response, drop: bool)
    ensures Relays(p, answer, drop) <==> !drop && Relayable(p.payload.kind, answer)
  {
  }

  lemma SendsEffect(cfg: Config, v: NodeId, m: Payload, skip: set<NodeId>, q: Packet)
    requires v < |cfg.peers|
    ensures Sends(cfg, v, m, skip)[q]
            == if q.src == v && q.payload == m && q.dst in cfg.peers[v] && q.dst !in skip then 1 else 0
  {
    if q.src == v && q.payload == m && q.dst in cfg.peers[v] && q.dst !in skip {
      assert q == Packet(v, q.dst, m);
      assert q in Copies(v, cfg.peers[v] - skip, m);
    } else {
      assert q !in Copies(v, cfg.peers[v] - skip, m);
    }
  }

  /** A node's own payload goes to all its peers. */
  lemma OriginateEffect(cfg: Config, s: Net, v: NodeId, m: Payload)
    requires Enabled(cfg, s, Originate(v, m))
    ensures var s' := Next(cfg, s, Originate(v, m));
            && s'.nodes == s.nodes
            && forall q :: s'.flight[q] == s.flight[q] + if q.src == v && q.payload == m && q.dst in cfg.peers[v] then 1 else 0
  {
    forall q ensures Sends(cfg, v, m, {})[q] == if q.src == v && q.payload == m && q.dst in cfg.peers[v] then 1 else 0 {
      SendsEffect(cfg, v, m, {}, q);
    }
  }

  // ----- the whole network

  /** Nothing is lost or dropped, and consensus accepts what it is given. */
  predicate Smooth(t: Step) {
    match t
    case Originate(_, _) => true
    case Deliver(_, queued) => queued
    case Handle(_, _, answer, drop) => !drop && (answer == Success || answer == PendingFinalization || answer == Asynchronous)
    case Lose(_) => false
  }

  /** The nodes that broadcast `m` as their own in a run. */
  function Originators(steps: seq<Step>, m: Payload): set<NodeId> {
    if steps == [] then {}
    else (if steps[0].Originate? && steps[0].m == m then {steps[0].v} else {}) + Originators(steps[1..], m)
  }

  /** Node `v` has broadcast `m` or remembers it. */
  predicate Knows(s: Net, from: set<NodeId>, v: NodeId, m: Payload) {
    v in from || (v < |s.nodes| && IsDuplicate(s.nodes[v], m))
  }

  ghost predicate Coming(s: Net, u: NodeId, m: Payload) {
    exists v :: Packet(v, u, m) in s.flight
  }

  ghost predicate WaitsAt(n: NodeState, m: Payload) {
    exists i :: 0 <= i < |n.inbound| && n.inbound[i].payload == m
  }

  /** Every peer of `v` knows `m` or is about to. */
  ghost predicate Passed(cfg: Config, s: Net, from: set<NodeId>, v: NodeId, m: Payload)
    requires v < |cfg.peers|
  {
    forall u :: u in cfg.peers[v] ==> Knows(s, from, u, m) || Coming(s, u, m)
  }

  /** Whoever knows `m` has passed it on, or has it waiting; and whoever sent it knows it. */
  ghost predicate Spreading(cfg: Config, s: Net, from: set<NodeId>, m: Payload) {
    && |s.nodes| == |cfg.peers|
    && (forall v :: v in from ==> v < |cfg.peers| && Passed(cfg, s, from, v, m))
    && (forall v :: 0 <= v < |s.nodes| && IsDuplicate(s.nodes[v], m) ==>
          WaitsAt(s.nodes[v], m) || Passed(cfg, s, from, v, m))
    && (forall p :: p in s.flight && p.payload == m ==> Knows(s, from, p.src, m))
    && (forall v, i :: 0 <= v < |s.nodes| && 0 <= i < |s.nodes[v].inbound| && s.nodes[v].inbound[i].payload == m ==>
          Knows(s, from, s.nodes[v].inbound[i].src, m))
  }

  /** Knowledge is not lost, and what is coming arrives or is still coming. */
  ghost predicate Onward(s: Net, from: set<NodeId>, s': Net, from': set<NodeId>, m: Payload) {
    && (forall u :: Knows(s, from, u, m) ==> Knows(s', from', u, m))
    && (forall u :: Coming(s, u, m) ==> Coming(s', u, m) || Knows(s', from', u, m))
  }

  lemma PassedOnward(cfg: Config, s: Net, from: set<NodeId>, s': Net, from': set<NodeId>, v: NodeId, m: Payload)
    requires v < |cfg.peers| && Onward(s, from, s', from', m) && Passed(cfg, s, from, v, m)
    ensures Passed(cfg, s', from', v, m)
  {
  }

  lemma OriginateSpreads(cfg: Config, s: Net, from: set<NodeId>, v: NodeId, m: Payload, own: Payload)
    requires Enabled(cfg, s, Originate(v, own)) && Spreading(cfg, s, from, m)
    ensures Spreading(cfg, Next(cfg, s, Originate(v, own)), from + (if own == m then {v} else {}), m)
  {
    hide Next, Passed;
    OriginateEffect(cfg, s, v, own);
    var s', from' := Next(cfg, s, Originate(v, own)), from + if own == m then {v} else {};
    OnwardByFlight(s, from, s', from', m);
    forall u: NodeId | u < |cfg.peers| && Passed(cfg, s, from, u, m) ensures Passed(cfg, s', from', u, m) {
      PassedOnward(cfg, s, from, s', from', u, m);
    }
    if own == m {
      PassedToAll(cfg, s', from', v, v, m);
    }
  }

  lemma OnwardByFlight(s: Net, from: set<NodeId>, s': Net, from': set<NodeId>, m: Payload)
    requires s'.nodes == s.nodes && from <= from'
    requires forall p :: p in s.flight ==> p in s'.flight
    ensures Onward(s, from, s', from', m)
  {
    forall u | Coming(s, u, m) ensures Coming(s', u, m) {
      var v :| Packet(v, u, m) in s.flight;
      assert Packet(v, u, m) in s'.flight;
    }
  }

  lemma PassedToAll(cfg: Config, s: Net, from: set<NodeId>, v: NodeId, src: NodeId, m: Payload)
    requires v < |cfg.peers| && Knows(s, from, src, m)
    requires forall u :: u in cfg.peers[v] && u != src ==> Packet(v, u, m) in s.flight
    ensures Passed(cfg, s, from, v, m)
  {
  }

  /** What an arriving packet changes, as long as nothing is pushed out: it is known, and waits if it was not known before. */
  lemma ReceiveRemembers(cfg: Config, payloads: set<Payload>, n: NodeState, p: Packet, m: Payload)
    requires FitsQueues(cfg, payloads) && NodeOk(payloads, n) && p.payload in payloads && TypeRebroadcastable(m.kind)
    ensures var n' := Receive(cfg, n, p, true);
            && (IsDuplicate(n', m) <==> IsDuplicate(n, m) || m == p.payload)
            && n'.inbound == if IsDuplicate(n, p.payload) then n.inbound else n.inbound + [p]
  {
    hide FitsQueues, NodeOk;
    if !IsDuplicate(n, p.payload) && TypeRebroadcastable(p.payload.kind) {
      NoEviction(cfg, payloads, n, p.payload);
    }
  }

  lemma DeliverOnward(cfg: Config, s: Net, from: set<NodeId>, p: Packet, m: Payload)
    requires Enabled(cfg, s, Deliver(p, true))
    requires var n' := Receive(cfg, s.nodes[p.dst], p, true); IsDuplicate(n', m) <==> IsDuplicate(s.nodes[p.dst], m) || m == p.payload
    ensures Onward(s, from, Next(cfg, s, Deliver(p, true)), from, m)
  {
    hide Receive, IsDuplicate;
    var s' := Next(cfg, s, Deliver(p, true));
    forall u | Coming(s, u, m) ensures Coming(s', u, m) || Knows(s', from, u, m) {
      var v :| Packet(v, u, m) in s.flight;
      if Packet(v, u, m) != p {
        assert Packet(v, u, m) in s'.flight;
      }
    }
  }

  lemma DeliverSpreads(cfg: Config, payloads: set<Payload>, s: Net, from: set<NodeId>, p: Packet, m: Payload)
    requires FitsQueues(cfg, payloads) && NetOk(cfg, payloads, s) && TypeRebroadcastable(m.kind)
    requires Enabled(cfg, s, Deliver(p, true)) && Spreading(cfg, s, from, m)
    ensures Spreading(cfg, Next(cfg, s, Deliver(p, true)), from, m)
  {
    hide FitsQueues, NodeOk, Receive, IsDuplicate, Passed, Coming, Onward;
    var d := p.dst;
    var s', n := Next(cfg, s, Deliver(p, true)), s.nodes[d];
    ReceiveRemembers(cfg, payloads, n, p, m);
    DeliverOnward(cfg, s, from, p, m);
    KnowsOnward(s, from, s', from, m);
    forall u: NodeId | u < |cfg.peers| && Passed(cfg, s, from, u, m) ensures Passed(cfg, s', from, u, m) {
      PassedOnward(cfg, s, from, s', from, u, m);
    }
    WaitsOn(n, s'.nodes[d], p, m);
    assert forall q :: q in s'.flight ==> q in s.flight;
  }

  lemma KnowsOnward(s: Net, from: set<NodeId>, s': Net, from': set<NodeId>, m: Payload)
    requires Onward(s, from, s', from', m)
    ensures forall u :: Knows(s, from, u, m) ==> Knows(s', from', u, m)
  {
  }

  lemma WaitsOn(n: NodeState, n': NodeState, p: Packet, m: Payload)
    requires n'.inbound == n.inbound || n'.inbound == n.inbound + [p]
    ensures WaitsAt(n, m) ==> WaitsAt(n', m)
    ensures n'.inbound == n.inbound + [p] && p.payload == m ==> WaitsAt(n', m)
  {
    if WaitsAt(n, m) {
      var i :| 0 <= i < |n.inbound| && n.inbound[i].payload == m;
      assert n'.inbound[i].payload == m;
    }
    if n'.inbound == n.inbound + [p] && p.payload == m {
      assert n'.inbound[|n.inbound|].payload == m;
    }
  }

  /** Handling a request changes no memory; a waiting request stays, unless it is the one handled. */
  lemma HandledEffect(n: NodeState, i: nat, answer: Response, drop: bool, m: Payload)
    requires i < |n.inbound|
    ensures var n' := Handled(n, i, answer, drop);
            && (IsDuplicate(n', m) <==> IsDuplicate(n, m))
            && (forall j :: 0 <= j < |n'.inbound| ==> n'.inbound[j] in n.inbound)
            && (WaitsAt(n, m) && n.inbound[i].payload != m ==> WaitsAt(n', m))
  {
    var n' := Handled(n, i, answer, drop);
    if WaitsAt(n, m) && n.inbound[i].payload != m {
      var j :| 0 <= j < |n.inbound| && n.inbound[j].payload == m;
      assert n'.inbound[if j < i then j else j - 1].payload == m;
    }
  }

  lemma HandleOnward(cfg: Config, s: Net, from: set<NodeId>, v: NodeId, i: nat, answer: Response, drop: bool, m: Payload)
    requires Enabled(cfg, s, Handle(v, i, answer, drop))
    ensures var s' := Next(cfg, s, Handle(v, i, answer, drop));
            Onward(s, from, s', from, m) && forall q :: q in s.flight ==> q in s'.flight
  {
    hide Handled, IsDuplicate, Sends, Relays;
    HandledEffect(s.nodes[v], i, answer, drop, m);
    var s' := Next(cfg, s, Handle(v, i, answer, drop));
    forall u | Coming(s, u, m) ensures Coming(s', u, m) {
      var x :| Packet(x, u, m) in s.flight;
      assert Packet(x, u, m) in s'.flight;
    }
  }

  lemma HandleSpreads(cfg: Config, payloads: set<Payload>, s: Net, from: set<NodeId>, v: NodeId, i: nat, answer: Response, m: Payload)
    requires NetOk(cfg, payloads, s) && TypeRebroadcastable(m.kind)
    requires Enabled(cfg, s, Handle(v, i, answer, false)) && Smooth(Handle(v, i, answer, false))
    requires Spreading(cfg, s, from, m)
    ensures Spreading(cfg, Next(cfg, s, Handle(v, i, answer, false)), from, m)
  {
    hide NodeOk, IsDuplicate, Passed, Coming, Onward, Next, Handled, WaitsAt;
    var s', n := Next(cfg, s, Handle(v, i, answer, false)), s.nodes[v];
    NextOfHandle(cfg, s, v, i, answer);
    HandleOnward(cfg, s, from, v, i, answer, false, m);
    KnowsOnward(s, from, s', from, m);
    HandledEffect(n, i, answer, false, m);
    forall u: NodeId | u < |cfg.peers| && Passed(cfg, s, from, u, m) ensures Passed(cfg, s', from, u, m) {
      PassedOnward(cfg, s, from, s', from, u, m);
    }
    HandleEffect(cfg, s, v, i, answer, false);
    if n.inbound[i].payload == m {
      WaitingIsKnown(payloads, n, i);
      PassedToAll(cfg, s', from, v, n.inbound[i].src, m);
    }
    forall q | q in s'.flight && q.payload == m ensures Knows(s', from, q.src, m) {
      assert q in s.flight || q.src == v;
    }
  }

  lemma NextOfHandle(cfg: Config, s: Net, v: NodeId, i: nat, answer: Response)
    requires Enabled(cfg, s, Handle(v, i, answer, false))
    ensures Next(cfg, s, Handle(v, i, answer, false)).nodes == s.nodes[v := Handled(s.nodes[v], i, answer, false)]
  {
  }

  lemma WaitingIsKnown(payloads: set<Payload>, n: NodeState, i: nat)
    requires NodeOk(payloads, n) && i < |n.inbound| && TypeRebroadcastable(n.inbound[i].payload.kind)
    ensures IsDuplicate(n, n.inbound[i].payload)
  {
  }

  lemma {:induction false} RunSpreads(cfg: Config, payloads: set<Payload>, s: Net, from: set<NodeId>, steps: seq<Step>, s': Net, m: Payload)
    requires FitsQueues(cfg, payloads) && NetOk(cfg, payloads, s) && TypeRebroadcastable(m.kind)
    requires Run(cfg, s, steps, s') && Spreading(cfg, s, from, m)
    requires forall i :: 0 <= i < |steps| ==> Within(steps[i], payloads) && Smooth(steps[i])
    ensures Spreading(cfg, s', from + Originators(steps, m), m)
    decreases |steps|
  {
    hide FitsQueues, NetOk, Spreading, Enabled, Next;
    if steps == [] {
      assert from + {} == from;
    } else {
      var t, rest := steps[0], steps[1..];
      var from' := from + if t.Originate? && t.m == m then {t.v} else {};
      assert Within(t, payloads) && Smooth(t);
      match t {
        case Originate(v, own) => OriginateSpreads(cfg, s, from, v, m, own);
        case Deliver(p, queued) => DeliverSpreads(cfg, payloads, s, from, p, m);
        case Handle(v, i, answer, drop) => HandleSpreads(cfg, payloads, s, from, v, i, answer, m);
      }
      assert t.Originate? || from' == from;
      StepKeepsNet(cfg, payloads, s, t);
      RunSpreads(cfg, payloads, Next(cfg, s, t), from', rest, s', m);
      assert from' + Originators(rest, m) == from + Originators(steps, m);
    }
  }

  /** A way through the network along the connections. */
  ghost predicate IsPath(cfg: Config, path: seq<NodeId>) {
    && path != []
    && (forall i :: 0 <= i < |path| ==> path[i] < |cfg.peers|)
    && (forall i :: 0 <= i < |path| - 1 ==> path[i + 1] in cfg.peers[path[i]])
  }

  lemma {:induction false} AlongPath(cfg: Config, s: Net, from: set<NodeId>, path: seq<NodeId>, m: Payload)
    requires Spreading(cfg, s, from, m) && IsPath(cfg, path) && path[0] in from
    requires s.flight == multiset{} && forall v :: 0 <= v < |s.nodes| ==> s.nodes[v].inbound == []
    ensures Knows(s, from, path[|path| - 1], m)
    decreases |path|
  {
    if |path| == 1 {
    } else {
      var prev := path[..|path| - 1];
      assert forall i :: 0 <= i < |prev| ==> prev[i] == path[i];
      AlongPath(cfg, s, from, prev, m);
      var v := prev[|prev| - 1];
      assert Passed(cfg, s, from, v, m);
    }
  }

  lemma {:induction false} OriginatorsAre(steps: seq<Step>, m: Payload, v: NodeId)
    ensures v in Originators(steps, m) <==> Originate(v, m) in steps
    decreases |steps|
  {
    if steps == [] {
    } else {
      OriginatorsAre(steps[1..], m, v);
      assert steps == [steps[0]] + steps[1..];
    }
  }

  /**
    Flooding reaches everybody: in a run that loses and drops nothing, in which consensus
    accepts what it is given, whose payloads fit the deduplication queues and which ends with
    nothing on its way or waiting, every node that can be reached from an originator of a
    relayable payload has remembered it, or has originated it as well.
   */
  lemma FloodingReachesAll(cfg: Config, payloads: set<Payload>, steps: seq<Step>, s: Net, m: Payload, path: seq<NodeId>)
    requires FitsQueues(cfg, payloads) && Run(cfg, Start(cfg), steps, s)
    requires forall i :: 0 <= i < |steps| ==> Within(steps[i], payloads) && Smooth(steps[i])
    requires s.flight == multiset{} && forall v :: 0 <= v < |s.nodes| ==> s.nodes[v].inbound == []
    requires m.kind == Block || m.kind == Transaction || m.kind == FinalizationRecord || m.kind == FinalizationMessage
    requires IsPath(cfg, path) && Originate(path[0], m) in steps
    ensures var u := path[|path| - 1];
            || Originate(u, m) in steps
            || (&& u < |s.nodes|
                && m in (match m.kind
                         case Block => s.nodes[u].blocks
                         case Transaction => s.nodes[u].transactions
                         case FinalizationRecord => s.nodes[u].finRecords
                         case FinalizationMessage => s.nodes[u].finalizations
                         case CatchUpStatus => []))
  {
    hide FitsQueues, Run, Spreading, Within, Smooth;
    StartOk(cfg, payloads);
    NothingYet(cfg, m);
    RunSpreads(cfg, payloads, Start(cfg), {}, steps, s, m);
    var from := {} + Originators(steps, m);
    var u := path[|path| - 1];
    OriginatorsAre(steps, m, path[0]);
    OriginatorsAre(steps, m, u);
    AlongPath(cfg, s, from, path, m);
  }

  lemma NothingYet(cfg: Config, m: Payload)
    ensures Spreading(cfg, Start(cfg), {}, m)
  {
    assert forall kind :: Queue(FRESH, kind) == [];
  }
}
