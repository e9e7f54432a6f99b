/**
  Broadcast packets in a network of nodes: a node checks an incoming broadcast against its
  deduplication queue, hands it to consensus, and depending on the answer relays it to all its
  peers except the one it came from. Answers, losses and the order of events are arbitrary.
 */
module Flooding {
  import opened Common
  import opened Consensus
  import opened Dedup

  type NodeId = nat

  /** A packet type and the rest of the payload; hashes are taken to tell payloads apart. */
  datatype Payload = Payload(kind: PacketType, body: nat)

  datatype Packet = Packet(src: NodeId, dst: NodeId, payload: Payload)

  /** `peers[v]` are the nodes that node `v` sends broadcasts to. */
  datatype Config = Config(peers: seq<set<NodeId>>, longSize: nat, shortSize: nat)

  /** The four queues, the requests waiting for consensus, and a record of what has been relayed. */
  datatype NodeState = NodeState(finalizations: seq<Payload>, transactions: seq<Payload>, blocks: seq<Payload>,
                                 finRecords: seq<Payload>, inbound: seq<Packet>, relayed: multiset<Payload>)

  datatype Net = Net(nodes: seq<NodeState>, flight: multiset<Packet>)

  const FRESH := NodeState([], [], [], [], [], multiset{})

  function Start(cfg: Config): Net {
    Net(seq(|cfg.peers|, _ => FRESH), multiset{})
  }

  /** Finalization messages and transactions have long queues, blocks and finalization records short ones. */
  function Capacity(cfg: Config, kind: PacketType): nat {
    if kind in {FinalizationMessage, Transaction} then cfg.longSize else cfg.shortSize
  }

  function Queue(n: NodeState, kind: PacketType): seq<Payload> {
    match kind
    case FinalizationMessage => n.finalizations
    case Transaction => n.transactions
    case Block => n.blocks
    case FinalizationRecord => n.finRecords
    case CatchUpStatus => []
  }

  function Remember(n: NodeState, kind: PacketType, q: seq<Payload>): NodeState {
    match kind
    case FinalizationMessage => n.(finalizations := q)
    case Transaction => n.(transactions := q)
    case Block => n.(blocks := q)
    case FinalizationRecord => n.(finRecords := q)
    case CatchUpStatus => n
  }

  predicate IsDuplicate(n: NodeState, m: Payload) {
    m in Queue(n, m.kind)
  }

  /** The packets that relaying `m` at node `v` sends; `skip` is the peer it came from, if any. */
  function Sends(cfg: Config, v: NodeId, m: Payload, skip: set<NodeId>): multiset<Packet>
    requires v < |cfg.peers|
  {
    multiset(Copies(v, cfg.peers[v] - skip, m))
  }

  function Copies(v: NodeId, targets: set<NodeId>, m: Payload): set<Packet> {
    set u | u in targets :: Packet(v, u, m)
  }

  datatype Step =
    | Originate(v: NodeId, m: Payload)                          // a node broadcasts a payload of its own
    | Deliver(p: Packet, queued: bool)                          // a packet arrives; the inbound queue may be full
    | Handle(v: NodeId, i: nat, answer: Response, drop: bool)   // consensus answers; relaying may be switched off
    | Lose(p: Packet)

  ghost predicate Enabled(cfg: Config, s: Net, t: Step) {
    && |s.nodes| == |cfg.peers|
    && match t
       case Originate(v, _) => v < |s.nodes|
       case Deliver(p, _) => p in s.flight && p.dst < |s.nodes|
       case Handle(v, i, _, _) => v < |s.nodes| && i < |s.nodes[v].inbound|
       case Lose(p) => p in s.flight
  }

  /** What a node does with an arriving packet. */
  function Receive(cfg: Config, n: NodeState, p: Packet, queued: bool): NodeState {
    if IsDuplicate(n, p.payload) then n
    else
      var kind := p.payload.kind;
      var n' := Remember(n, kind, Insert(Queue(n, kind), Capacity(cfg, kind), p.payload));
      if queued then n'.(inbound := n'.inbound + [p]) else n'
  }

  predicate Relays(p: Packet, answer: Response, drop: bool) {
    !drop && TypeRebroadcastable(p.payload.kind) && AnswerRebroadcastable(answer, p.payload.kind)
  }

  function Handled(n: NodeState, i: nat, answer: Response, drop: bool): NodeState
    requires i < |n.inbound|
  {
    n.(inbound := n.inbound[..i] + n.inbound[i + 1..],
       relayed := if Relays(n.inbound[i], answer, drop) then n.relayed + multiset{n.inbound[i].payload} else n.relayed)
  }

  function Next(cfg: Config, s: Net, t: Step): Net
    requires Enabled(cfg, s, t)
  {
    match t
    case Originate(v, m) => s.(flight := s.flight + Sends(cfg, v, m, {}))
    case Deliver(p, queued) =>
      Net(s.nodes[p.dst := Receive(cfg, s.nodes[p.dst], p, queued)], s.flight - multiset{p})
    case Handle(v, i, answer, drop) =>
      var p := s.nodes[v].inbound[i];
      Net(s.nodes[v := Handled(s.nodes[v], i, answer, drop)],
          if Relays(p, answer, drop) then s.flight + Sends(cfg, v, p.payload, {p.src}) else s.flight)
    case Lose(p) => s.(flight := s.flight - multiset{p})
  }

  /** `s'` is reached from `s` by `steps`. */
  ghost predicate Run(cfg: Config, s: Net, steps: seq<Step>, s': Net)
    decreases |steps|
  {
    if steps == [] then s == s'
    else Enabled(cfg, s, steps[0]) && Run(cfg, Next(cfg, s, steps[0]), steps[1..], s')
  }

  // ----- each node relays a payload at most once

  /** The payloads of one run, few enough of each deduplicated kind for its queue. */
  ghost predicate FitsQueues(cfg: Config, payloads: set<Payload>) {
    forall kind {:trigger OfKind(payloads, kind)} :: TypeRebroadcastable(kind) ==> |OfKind(payloads, kind)| <= Capacity(cfg, kind)
  }

  function OfKind(payloads: set<Payload>, kind: PacketType): set<Payload> {
    set m | m in payloads && m.kind == kind
  }

  function Elements<T>(s: seq<T>): set<T> {
    set x | x in s
  }

  /** A relayable request that waits has been remembered, is the only one with its payload, and was not relayed before. */
  ghost predicate NodeOk(payloads: set<Payload>, n: NodeState) {
    && (forall kind {:trigger Queue(n, kind)} ::
          Distinct(Queue(n, kind)) && forall m :: m in Queue(n, kind) ==> m in OfKind(payloads, kind))
    && (forall i :: 0 <= i < |n.inbound| && TypeRebroadcastable(n.inbound[i].payload.kind) ==>
          IsDuplicate(n, n.inbound[i].payload) && n.inbound[i].payload !in n.relayed)
    && (forall i, j :: 0 <= i < j < |n.inbound| && TypeRebroadcastable(n.inbound[i].payload.kind) ==>
          n.inbound[i].payload != n.inbound[j].payload)
    && (forall m :: m in n.relayed ==> n.relayed[m] == 1 && TypeRebroadcastable(m.kind) && IsDuplicate(n, m))
    && (forall i :: 0 <= i < |n.inbound| ==> n.inbound[i].payload in payloads)
  }

  ghost predicate NetOk(cfg: Config, payloads: set<Payload>, s: Net) {
    && |s.nodes| == |cfg.peers|
    && (forall v :: 0 <= v < |s.nodes| ==> NodeOk(payloads, s.nodes[v]))
    && (forall p :: p in s.flight ==> p.payload in payloads)
  }

  lemma {:induction false} DistinctFits<T>(s: seq<T>, xs: set<T>)
    requires Distinct(s) && Elements(s) <= xs
    ensures |s| <= |xs|
    decreases |s|
  {
    if s == [] {
    } else {
      var last := s[|s| - 1];
      assert forall x :: x in s[..|s| - 1] ==> x in s && x != last;
      DistinctFits(s[..|s| - 1], xs - {last});
      assert last in Elements(s);
    }
  }

  /** As long as the payloads fit, nothing is ever pushed out of a queue. */
  lemma NoEviction(cfg: Config, payloads: set<Payload>, n: NodeState, m: Payload)
    requires FitsQueues(cfg, payloads) && NodeOk(payloads, n) && m in payloads
    requires TypeRebroadcastable(m.kind) && !IsDuplicate(n, m)
    ensures Insert(Queue(n, m.kind), Capacity(cfg, m.kind), m) == Queue(n, m.kind) + [m]
  {
    var q := Queue(n, m.kind) + [m];
    assert Elements(q) <= OfKind(payloads, m.kind);
    DistinctFits(q, OfKind(payloads, m.kind));
  }

  lemma ReceiveKeepsNode(cfg: Config, payloads: set<Payload>, n: NodeState, p: Packet, queued: bool)
    requires FitsQueues(cfg, payloads) && NodeOk(payloads, n) && p.payload in payloads
    ensures NodeOk(payloads, Receive(cfg, n, p, queued))
  {
    var m := p.payload;
    if !IsDuplicate(n, m) && TypeRebroadcastable(m.kind) {
      NoEviction(cfg, payloads, n, m);
      RememberedKeepsNode(payloads, n, m);
      if queued {
        QueuedKeepsNode(payloads, Remember(n, m.kind, Queue(n, m.kind) + [m]), p);
      }
    } else if !IsDuplicate(n, m) && queued {
      QueuedKeepsNode(payloads, n, p);
    }
  }

  lemma RememberedKeepsNode(payloads: set<Payload>, n: NodeState, m: Payload)
    requires NodeOk(payloads, n) && m in payloads && TypeRebroadcastable(m.kind) && !IsDuplicate(n, m)
    ensures var n' := Remember(n, m.kind, Queue(n, m.kind) + [m]);
            && NodeOk(payloads, n') && IsDuplicate(n', m) && m !in n'.relayed
            && forall i :: 0 <= i < |n'.inbound| ==> n'.inbound[i].payload != m || !TypeRebroadcastable(m.kind)
  {
    var n' := Remember(n, m.kind, Queue(n, m.kind) + [m]);
    assert forall kind :: Queue(n', kind) == if kind == m.kind then Queue(n, kind) + [m] else Queue(n, kind);
    assert forall x :: IsDuplicate(n', x) <==> IsDuplicate(n, x) || x == m;
  }

  lemma QueuedKeepsNode(payloads: set<Payload>, n: NodeState, p: Packet)
    requires NodeOk(payloads, n) && p.payload in payloads
    requires TypeRebroadcastable(p.payload.kind) ==>
               && IsDuplicate(n, p.payload) && p.payload !in n.relayed
               && forall i :: 0 <= i < |n.inbound| ==> n.inbound[i].payload != p.payload
    ensures NodeOk(payloads, n.(inbound := n.inbound + [p]))
  {
    var n' := n.(inbound := n.inbound + [p]);
    assert forall kind :: Queue(n', kind) == Queue(n, kind);
    assert forall x :: IsDuplicate(n', x) == IsDuplicate(n, x);
  }

  lemma HandledKeepsNode(payloads: set<Payload>, n: NodeState, i: nat, answer: Response, drop: bool)
    requires NodeOk(payloads, n) && i < |n.inbound|
    ensures NodeOk(payloads, Handled(n, i, answer, drop))
  {
    var n' := Handled(n, i, answer, drop);
    assert forall kind :: Queue(n', kind) == Queue(n, kind);
    assert forall x :: IsDuplicate(n', x) == IsDuplicate(n, x);
    assert forall j :: 0 <= j < |n'.inbound| ==> n'.inbound[j] == n.inbound[if j < i then j else j + 1];
  }

  lemma SentPayloads(cfg: Config, v: NodeId, m: Payload, skip: set<NodeId>)
    requires v < |cfg.peers|
    ensures forall p :: p in Sends(cfg, v, m, skip) ==> p.src == v && p.payload == m && p.dst in cfg.peers[v] && p.dst !in skip
  {
  }

  ghost predicate Within(t: Step, payloads: set<Payload>) {
    t.Originate? ==> t.m in payloads
  }

  lemma StepKeepsNet(cfg: Config, payloads: set<Payload>, s: Net, t: Step)
    requires FitsQueues(cfg, payloads) && NetOk(cfg, payloads, s) && Enabled(cfg, s, t) && Within(t, payloads)
    ensures NetOk(cfg, payloads, Next(cfg, s, t))
  {
    hide NodeOk, Sends, Receive, Handled;
    match t
    case Originate(v, m) => SentPayloads(cfg, v, m, {});
    case Deliver(p, queued) => ReceiveKeepsNode(cfg, payloads, s.nodes[p.dst], p, queued);
    case Handle(v, i, answer, drop) =>
      HandledKeepsNode(payloads, s.nodes[v], i, answer, drop);
      SentPayloads(cfg, v, s.nodes[v].inbound[i].payload, {s.nodes[v].inbound[i].src});
      WaitingPayload(payloads, s.nodes[v], i);
    case Lose(p) =>
  }

  lemma WaitingPayload(payloads: set<Payload>, n: NodeState, i: nat)
    requires NodeOk(payloads, n) && i < |n.inbound|
    ensures n.inbound[i].payload in payloads
  {
  }

  lemma {:induction false} RunKeepsNet(cfg: Config, payloads: set<Payload>, s: Net, steps: seq<Step>, s': Net)
    requires FitsQueues(cfg, payloads) && NetOk(cfg, payloads, s) && Run(cfg, s, steps, s')
    requires forall i :: 0 <= i < |steps| ==> Within(steps[i], payloads)
    ensures NetOk(cfg, payloads, s')
    decreases |steps|
  {
    hide NetOk, Next;
    if steps == [] {
    } else {
      StepKeepsNet(cfg, payloads, s, steps[0]);
      RunKeepsNet(cfg, payloads, Next(cfg, s, steps[0]), steps[1..], s');
    }
  }

  lemma StartOk(cfg: Config, payloads: set<Payload>)
    ensures NetOk(cfg, payloads, Start(cfg))
  {
    assert forall kind :: Queue(FRESH, kind) == [];
  }

  /** In every run with few enough payloads, every node relays every payload at most once. */
  lemma RelayedAtMostOnce(cfg: Config, payloads: set<Payload>, steps: seq<Step>, s: Net, v: NodeId, m: Payload)
    requires FitsQueues(cfg, payloads) && Run(cfg, Start(cfg), steps, s)
    requires forall i :: 0 <= i < |steps| ==> Within(steps[i], payloads)
    requires v < |s.nodes|
    ensures s.nodes[v].relayed[m] <= 1
  {
    StartOk(cfg, payloads);
    RunKeepsNet(cfg, payloads, Start(cfg), steps, s);
    if m in s.nodes[v].relayed {
      assert NodeOk(payloads, s.nodes[v]);
    }
  }

  /** What handling a request sends never goes back to the peer the request came from. */
  lemma NeverSentBack(cfg: Config, s: Net, t: Step, p: Packet)
    requires Enabled(cfg, s, t) && t.Handle?
    requires Next(cfg, s, t).flight[p] > s.flight[p]
    ensures p.src == t.v && p.dst in cfg.peers[t.v] && p.dst != s.nodes[t.v].inbound[t.i].src
  {
    var q := s.nodes[t.v].inbound[t.i];
    SentPayloads(cfg, t.v, q.payload, {q.src});
    assert p in Sends(cfg, t.v, q.payload, {q.src});
  }

  // ----- what is delivered has been sent

  /** The packets sent in relaying, counted as one to each peer every time. */
  function RelayCost(cfg: Config, nodes: seq<NodeState>): nat
    requires |nodes| <= |cfg.peers|
  {
    if nodes == [] then 0
    else RelayCost(cfg, nodes[..|nodes| - 1]) + |cfg.peers[|nodes| - 1]| * |nodes[|nodes| - 1].relayed|
  }

  lemma {:induction false} RelayCostUpdate(cfg: Config, nodes: seq<NodeState>, v: NodeId, n: NodeState)
    requires v < |nodes| <= |cfg.peers|
    ensures RelayCost(cfg, nodes[v := n]) + |cfg.peers[v]| * |nodes[v].relayed|
            == RelayCost(cfg, nodes) + |cfg.peers[v]| * |n.relayed|
    decreases |nodes|
  {
    var init := nodes[..|nodes| - 1];
    if v == |init| {
      assert nodes[v := n][..|nodes| - 1] == init;
    } else {
      RelayCostUpdate(cfg, init, v, n);
      assert nodes[v := n][..|nodes| - 1] == init[v := n];
    }
  }

  lemma {:induction false} CopiesSize(v: NodeId, targets: set<NodeId>, m: Payload)
    ensures |Copies(v, targets, m)| <= |targets|
    decreases targets
  {
    if targets == {} {
      assert Copies(v, targets, m) == {};
    } else {
      var u :| u in targets;
      CopiesSize(v, targets - {u}, m);
      assert Copies(v, targets, m) == Copies(v, targets - {u}, m) + {Packet(v, u, m)};
    }
  }

  lemma SendsSize(cfg: Config, v: NodeId, m: Payload, skip: set<NodeId>)
    requires v < |cfg.peers|
    ensures |Sends(cfg, v, m, skip)| <= |cfg.peers[v]|
  {
    CopiesSize(v, cfg.peers[v] - skip, m);
    assert cfg.peers[v] == (cfg.peers[v] - skip) + (cfg.peers[v] * skip);
  }

  /** The packets a node sends when it broadcasts a payload of its own. */
  function Cost(cfg: Config, t: Step): nat {
    if t.Originate? && t.v < |cfg.peers| then |cfg.peers[t.v]| else 0
  }

  function Gain(t: Step): nat {
    if t.Deliver? then 1 else 0
  }

  function Deliveries(steps: seq<Step>): nat {
    if steps == [] then 0 else Gain(steps[0]) + Deliveries(steps[1..])
  }

  function Originated(cfg: Config, steps: seq<Step>): nat
    decreases |steps|
  {
    if steps == [] then 0 else Cost(cfg, steps[0]) + Originated(cfg, steps[1..])
  }

  /** Every delivery takes a packet out of flight; only originating and relaying put any in. */
  lemma StepBalance(cfg: Config, s: Net, t: Step)
    requires Enabled(cfg, s, t)
    ensures |Next(cfg, s, t).nodes| == |cfg.peers|
    ensures |Next(cfg, s, t).flight| + Gain(t) + RelayCost(cfg, s.nodes)
            <= |s.flight| + Cost(cfg, t) + RelayCost(cfg, Next(cfg, s, t).nodes)
  {
    hide Sends, RelayCost;
    match t
    case Originate(v, m) => SendsSize(cfg, v, m, {});
    case Deliver(p, queued) =>
      RelayCostUpdate(cfg, s.nodes, p.dst, Receive(cfg, s.nodes[p.dst], p, queued));
    case Handle(v, i, answer, drop) =>
      var n := s.nodes[v];
      SendsSize(cfg, v, n.inbound[i].payload, {n.inbound[i].src});
      RelayCostUpdate(cfg, s.nodes, v, Handled(n, i, answer, drop));
      OneMoreRelay(|cfg.peers[v]|, |n.relayed|);
    case Lose(p) =>
  }

  lemma OneMoreRelay(degree: nat, relayed: nat)
    ensures degree * (relayed + 1) == degree * relayed + degree
  {
  }

  /** In every run, whatever happens: what is delivered or in flight has been originated or relayed. */
  lemma {:induction false} RunBalance(cfg: Config, s: Net, steps: seq<Step>, s': Net)
    requires |s.nodes| == |cfg.peers| && Run(cfg, s, steps, s')
    ensures |s'.nodes| == |cfg.peers|
    ensures Deliveries(steps) + |s'.flight| + RelayCost(cfg, s.nodes)
            <= |s.flight| + Originated(cfg, steps) + RelayCost(cfg, s'.nodes)
    decreases |steps|
  {
    hide Next, RelayCost, Gain, Cost;
    if steps == [] {
    } else {
      StepBalance(cfg, s, steps[0]);
      RunBalance(cfg, Next(cfg, s, steps[0]), steps[1..], s');
    }
  }

  // ----- flooding ends

  /** Only payloads of the run are on their way, waiting or relayed. */
  ghost predicate Known(payloads: set<Payload>, s: Net) {
    && (forall p :: p in s.flight ==> p.payload in payloads)
    && (forall v :: 0 <= v < |s.nodes| ==> KnownAt(payloads, s.nodes[v]))
  }

  ghost predicate KnownAt(payloads: set<Payload>, n: NodeState) {
    && (forall i :: 0 <= i < |n.inbound| ==> n.inbound[i].payload in payloads)
    && (forall m :: m in n.relayed ==> m in payloads)
  }

  lemma ReceiveKeepsKnown(cfg: Config, payloads: set<Payload>, n: NodeState, p: Packet, queued: bool)
    requires KnownAt(payloads, n) && p.payload in payloads
    ensures KnownAt(payloads, Receive(cfg, n, p, queued))
  {
  }

  lemma HandledKeepsKnown(payloads: set<Payload>, n: NodeState, i: nat, answer: Response, drop: bool)
    requires KnownAt(payloads, n) && i < |n.inbound|
    ensures KnownAt(payloads, Handled(n, i, answer, drop)) && n.inbound[i].payload in payloads
  {
  }

  lemma StepKeepsKnown(cfg: Config, payloads: set<Payload>, s: Net, t: Step)
    requires Known(payloads, s) && Enabled(cfg, s, t) && Within(t, payloads)
    ensures Known(payloads, Next(cfg, s, t))
  {
    hide Sends, KnownAt, Receive, Handled;
    match t
    case Originate(v, m) => SentPayloads(cfg, v, m, {});
    case Deliver(p, queued) => ReceiveKeepsKnown(cfg, payloads, s.nodes[p.dst], p, queued);
    case Handle(v, i, answer, drop) =>
      SentPayloads(cfg, v, s.nodes[v].inbound[i].payload, {s.nodes[v].inbound[i].src});
      HandledKeepsKnown(payloads, s.nodes[v], i, answer, drop);
    case Lose(p) =>
  }

  lemma {:induction false} RunKeepsKnown(cfg: Config, payloads: set<Payload>, s: Net, steps: seq<Step>, s': Net)
    requires Known(payloads, s) && Run(cfg, s, steps, s')
    requires forall i :: 0 <= i < |steps| ==> Within(steps[i], payloads)
    ensures Known(payloads, s')
    decreases |steps|
  {
    hide Known, Next, Within;
    if steps == [] {
    } else {
      StepKeepsKnown(cfg, payloads, s, steps[0]);
      assert forall i :: 0 <= i < |steps[1..]| ==> steps[1..][i] == steps[i + 1];
      RunKeepsKnown(cfg, payloads, Next(cfg, s, steps[0]), steps[1..], s');
    }
  }

  lemma {:induction false} EachOnceFits(relayed: multiset<Payload>, payloads: set<Payload>)
    requires forall m :: m in relayed ==> m in payloads && relayed[m] <= 1
    ensures |relayed| <= |payloads|
    decreases payloads
  {
    if payloads == {} {
      assert relayed == multiset{};
    } else {
      var m :| m in payloads;
      EachOnceFits(relayed - multiset{m}, payloads - {m});
      assert m in relayed ==> relayed == (relayed - multiset{m}) + multiset{m};
      assert m !in relayed ==> relayed == relayed - multiset{m};
    }
  }

  function Degrees(peers: seq<set<NodeId>>): nat {
    if peers == [] then 0 else Degrees(peers[..|peers| - 1]) + |peers[|peers| - 1]|
  }

  ghost predicate EachOnce(s: Net) {
    forall v, m {:trigger s.nodes[v].relayed[m]} :: 0 <= v < |s.nodes| ==> s.nodes[v].relayed[m] <= 1
  }

  lemma {:induction false} EachOnceCost(cfg: Config, payloads: set<Payload>, s: Net, k: nat)
    requires k <= |s.nodes| == |cfg.peers| && Known(payloads, s) && EachOnce(s)
    ensures RelayCost(cfg, s.nodes[..k]) <= Degrees(cfg.peers[..k]) * |payloads|
    decreases k
  {
    if k == 0 {
    } else {
      assert s.nodes[..k][..k - 1] == s.nodes[..k - 1] && cfg.peers[..k][..k - 1] == cfg.peers[..k - 1];
      EachOnceCost(cfg, payloads, s, k - 1);
      assert KnownAt(payloads, s.nodes[k - 1]);
      EachOnceFits(s.nodes[k - 1].relayed, payloads);
      ScaleUp(|cfg.peers[k - 1]|, |s.nodes[k - 1].relayed|, |payloads|);
      Distribute(Degrees(cfg.peers[..k - 1]), |cfg.peers[k - 1]|, |payloads|);
    }
  }

  lemma ScaleUp(d: nat, a: nat, b: nat)
    requires a <= b
    ensures d * a <= d * b
  {
  }

  lemma Distribute(a: nat, b: nat, c: nat)
    ensures (a + b) * c == a * c + b * c
  {
  }

  lemma {:induction false} FreshCost(cfg: Config, k: nat)
    requires k <= |cfg.peers|
    ensures RelayCost(cfg, seq(k, _ => FRESH)) == 0
    decreases k
  {
    if k == 0 {
    } else {
      assert seq(k, _ => FRESH)[..k - 1] == seq(k - 1, _ => FRESH);
      FreshCost(cfg, k - 1);
    }
  }

  /** Where every node has relayed every payload at most once, the deliveries are bounded. */
  lemma RelayingOnceEnds(cfg: Config, payloads: set<Payload>, steps: seq<Step>, s: Net)
    requires Run(cfg, Start(cfg), steps, s) && EachOnce(s)
    requires forall i :: 0 <= i < |steps| ==> Within(steps[i], payloads)
    ensures Deliveries(steps) <= Degrees(cfg.peers) * |payloads| + Originated(cfg, steps)
  {
    hide Run, RelayCost, EachOnce, Deliveries, Originated, Degrees, Within;
    RunBalance(cfg, Start(cfg), steps, s);
    FreshCost(cfg, |cfg.peers|);
    RunKeepsKnown(cfg, payloads, Start(cfg), steps, s);
    EachOnceCost(cfg, payloads, s, |cfg.peers|);
    assert cfg.peers[..|cfg.peers|] == cfg.peers && s.nodes[..|cfg.peers|] == s.nodes;
  }

  /**
    Flooding ends, by deduplication: if the payloads of a run fit the deduplication queues, the
    number of deliveries is bounded by the number of links times the number of payloads, plus
    one packet per peer for every payload that a node originates - whatever consensus answers.
   */
  lemma FloodingEnds(cfg: Config, payloads: set<Payload>, steps: seq<Step>, s: Net)
    requires FitsQueues(cfg, payloads) && Run(cfg, Start(cfg), steps, s)
    requires forall i :: 0 <= i < |steps| ==> Within(steps[i], payloads)
    ensures Deliveries(steps) <= Degrees(cfg.peers) * |payloads| + Originated(cfg, steps)
  {
    hide FitsQueues, Run, Degrees, Originated, Deliveries;
    forall v, m {:trigger s.nodes[v].relayed[m]} | 0 <= v < |s.nodes| ensures s.nodes[v].relayed[m] <= 1 {
      RelayedAtMostOnce(cfg, payloads, steps, s, v, m);
    }
    RelayingOnceEnds(cfg, payloads, steps, s);
  }

  // ----- the other protection: consensus does not accept a payload twice

  /** Node `v` hands `m` to consensus and gets an answer that lets it be relayed. */
  ghost predicate AcceptsAt(cfg: Config, s: Net, t: Step, v: NodeId, m: Payload) {
    && Enabled(cfg, s, t) && t.Handle? && t.v == v && s.nodes[v].inbound[t.i].payload == m
    && TypeRebroadcastable(m.kind) && AnswerRebroadcastable(t.answer, m.kind)
  }

  /** How often that happens in a run. */
  ghost function Acceptances(cfg: Config, s: Net, steps: seq<Step>, v: NodeId, m: Payload): nat
    decreases |steps|
  {
    if steps == [] || !Enabled(cfg, s, steps[0]) then 0
    else (if AcceptsAt(cfg, s, steps[0], v, m) then 1 else 0) + Acceptances(cfg, Next(cfg, s, steps[0]), steps[1..], v, m)
  }

  /** No node gets such an answer twice for one payload: to a known payload consensus says that it is a duplicate. */
  ghost predicate AnswersOnce(cfg: Config, steps: seq<Step>) {
    forall v, m :: Acceptances(cfg, Start(cfg), steps, v, m) <= 1
  }

  lemma {:induction false} RelaysAreAccepted(cfg: Config, s: Net, steps: seq<Step>, s': Net, v: NodeId, m: Payload)
    requires |s.nodes| == |cfg.peers| && Run(cfg, s, steps, s') && v < |cfg.peers|
    ensures |s'.nodes| == |cfg.peers|
    ensures s'.nodes[v].relayed[m] <= s.nodes[v].relayed[m] + Acceptances(cfg, s, steps, v, m)
    decreases |steps|
  {
    if steps == [] {
    } else {
      RelaysAreAccepted(cfg, Next(cfg, s, steps[0]), steps[1..], s', v, m);
    }
  }

  /**
    Flooding ends, by the answers of consensus: however many payloads there are and however
    small the queues, the same bound holds if no node accepts a payload twice.
   */
  lemma FloodingEndsByAnswers(cfg: Config, payloads: set<Payload>, steps: seq<Step>, s: Net)
    requires AnswersOnce(cfg, steps) && Run(cfg, Start(cfg), steps, s)
    requires forall i :: 0 <= i < |steps| ==> Within(steps[i], payloads)
    ensures Deliveries(steps) <= Degrees(cfg.peers) * |payloads| + Originated(cfg, steps)
  {
    hide Run, Degrees, Originated, Deliveries, Acceptances;
    RunBalance(cfg, Start(cfg), steps, s);
    forall v, m {:trigger s.nodes[v].relayed[m]} | 0 <= v < |s.nodes| ensures s.nodes[v].relayed[m] <= 1 {
      RelaysAreAccepted(cfg, Start(cfg), steps, s, v, m);
    }
    RelayingOnceEnds(cfg, payloads, steps, s);
  }
}
