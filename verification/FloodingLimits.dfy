/**
  Deduplication and the answers of consensus each end flooding by themselves. Where both fail -
  one payload more than a deduplication queue can hold, and a consensus layer that accepts a
  block it already knows - three nodes can pass the same payloads around for ever. The
  capacity in the theorem about deduplication is therefore sharp.
 */
module FloodingLimits {
  import opened Common
  import opened Consensus
  import opened Dedup
  import opened Flooding

  /** Three nodes, each connected to both others; block queues hold `capacity` hashes. */
  function Triangle(capacity: nat, longSize: nat): Config {
    Config([{1, 2}, {0, 2}, {0, 1}], longSize, capacity)
  }

  /** One block more than the block queues can hold. */
  function Blocks(capacity: nat): (ms: seq<Payload>)
    ensures |ms| == capacity + 1 && Distinct(ms)
    ensures forall i :: 0 <= i < |ms| ==> ms[i] == Payload(Block, i)
  {
    seq(capacity + 1, (i: nat) => Payload(Block, i))
  }

  /** One packet from `v` to `u` for every payload. */
  function Link(v: NodeId, u: NodeId, ms: seq<Payload>): multiset<Packet> {
    if ms == [] then multiset{} else multiset{Packet(v, u, ms[0])} + Link(v, u, ms[1..])
  }

  lemma {:induction false} LinkOneMore(v: NodeId, u: NodeId, ms: seq<Payload>, m: Payload)
    ensures Link(v, u, ms + [m]) == Link(v, u, ms) + multiset{Packet(v, u, m)}
    decreases |ms|
  {
    if ms == [] {
      assert [m][1..] == [];
    } else {
      assert (ms + [m])[1..] == ms[1..] + [m];
      LinkOneMore(v, u, ms[1..], m);
    }
  }

  /** A node whose block queue is still empty or holds all but the first payload, and that has nothing to do. */
  predicate Waiting(n: NodeState, ms: seq<Payload>)
    requires ms != []
  {
    n.inbound == [] && (n.blocks == [] || n.blocks == ms[1..])
  }

  /** All payloads are on their way from `v` to `u`, and no node remembers the first of them. */
  ghost predicate Loaded(s: Net, v: NodeId, u: NodeId, ms: seq<Payload>)
    requires ms != []
  {
    && |s.nodes| == 3
    && (forall x :: 0 <= x < 3 ==> Waiting(s.nodes[x], ms))
    && Link(v, u, ms) <= s.flight
  }

  predicate Corner(v: NodeId, u: NodeId, w: NodeId) {
    v < 3 && u < 3 && w < 3 && v != u && u != w && v != w
  }

  /** The block queue after `i` of the payloads: it never holds the next one. */
  lemma QueueMisses(ms: seq<Payload>, q: seq<Payload>, i: nat)
    requires ms != [] && Distinct(ms) && i < |ms| && (q == [] || q == ms[1..])
    ensures ms[i] !in LastN(q + ms[..i], |ms| - 1)
  {
    var x := LastN(q + ms[..i], |ms| - 1);
    if q == ms[1..] {
      assert x == ms[i + 1..] + ms[..i];
    } else {
      assert x == ms[..i];
    }
  }

  lemma QueueAfterAll(ms: seq<Payload>, q: seq<Payload>)
    requires ms != [] && (q == [] || q == ms[1..])
    ensures LastN(q + ms, |ms| - 1) == ms[1..]
  {
  }

  /** `i` of the payloads have been passed on by `u`. */
  ghost predicate Midway(s: Net, v: NodeId, u: NodeId, w: NodeId, ms: seq<Payload>, q: seq<Payload>, i: nat)
    requires ms != [] && i <= |ms|
  {
    && Corner(v, u, w) && |s.nodes| == 3
    && Waiting(s.nodes[v], ms) && Waiting(s.nodes[w], ms)
    && s.nodes[u].inbound == [] && s.nodes[u].blocks == LastN(q + ms[..i], |ms| - 1)
    && Link(u, w, ms[..i]) + Link(v, u, ms[i..]) <= s.flight
  }

  lemma OnlyOtherPeer(capacity: nat, longSize: nat, v: NodeId, u: NodeId, w: NodeId, m: Payload)
    requires Corner(v, u, w)
    ensures Sends(Triangle(capacity, longSize), u, m, {v}) == multiset{Packet(u, w, m)}
  {
    assert Triangle(capacity, longSize).peers[u] - {v} == {w};
    assert Copies(u, {w}, m) == {Packet(u, w, m)};
  }

  lemma QueueMovesOn(ms: seq<Payload>, q: seq<Payload>, i: nat)
    requires ms != [] && Distinct(ms) && i < |ms| && (q == [] || q == ms[1..])
    ensures var window := LastN(q + ms[..i], |ms| - 1);
            ms[i] !in window && Insert(window, |ms| - 1, ms[i]) == LastN(q + ms[..i + 1], |ms| - 1)
  {
    hide LastN, Distinct;
    QueueMisses(ms, q, i);
    LastNOfOneMore(q + ms[..i], |ms| - 1, ms[i]);
    assert q + ms[..i] + [ms[i]] == q + ms[..i + 1];
  }

  /** At the node: the payload is not recognised, is queued, and once handled only the block queue has moved on. */
  lemma NodePasses(cfg: Config, n: NodeState, p: Packet, ms: seq<Payload>, q: seq<Payload>, i: nat)
    requires ms != [] && Distinct(ms) && i < |ms| && (q == [] || q == ms[1..])
    requires p.payload == ms[i] && ms[i].kind == Block && cfg.shortSize == |ms| - 1
    requires n.inbound == [] && n.blocks == LastN(q + ms[..i], |ms| - 1)
    ensures var n1 := Receive(cfg, n, p, true);
            && n1.inbound == [p]
            && Handled(n1, 0, Success, false).inbound == []
            && Handled(n1, 0, Success, false).blocks == LastN(q + ms[..i + 1], |ms| - 1)
  {
    hide LastN, Insert, Distinct;
    QueueMovesOn(ms, q, i);
    assert n.inbound + [p] == [p];
    assert [p][..0] + [p][1..] == [];
  }

  /** On the links: the payload has moved from the link `v` to `u` to the link `u` to `w`. */
  lemma LinksPass(flight: multiset<Packet>, v: NodeId, u: NodeId, w: NodeId, ms: seq<Payload>, i: nat)
    requires i < |ms| && Link(u, w, ms[..i]) + Link(v, u, ms[i..]) <= flight
    ensures Packet(v, u, ms[i]) in flight
    ensures Link(u, w, ms[..i + 1]) + Link(v, u, ms[i + 1..])
            <= flight - multiset{Packet(v, u, ms[i])} + multiset{Packet(u, w, ms[i])}
  {
    var p := Packet(v, u, ms[i]);
    assert ms[i..][0] == ms[i] && ms[i..][1..] == ms[i + 1..];
    assert Link(v, u, ms[i..]) == multiset{p} + Link(v, u, ms[i + 1..]);
    assert ms[..i + 1] == ms[..i] + [ms[i]];
    LinkOneMore(u, w, ms[..i], ms[i]);
    Swap(flight, Link(u, w, ms[..i]), Link(v, u, ms[i + 1..]), p, Packet(u, w, ms[i]));
  }

  lemma MovedOn(s: Net, s': Net, v: NodeId, u: NodeId, w: NodeId, ms: seq<Payload>, q: seq<Payload>, i: nat)
    requires i < |ms| && Midway(s, v, u, w, ms, q, i) && |s'.nodes| == 3
    requires s'.nodes[v] == s.nodes[v] && s'.nodes[w] == s.nodes[w]
    requires s'.nodes[u].inbound == [] && s'.nodes[u].blocks == LastN(q + ms[..i + 1], |ms| - 1)
    requires Link(u, w, ms[..i + 1]) + Link(v, u, ms[i + 1..]) <= s'.flight
    ensures Midway(s', v, u, w, ms, q, i + 1)
  {
  }

  function PassSteps(v: NodeId, u: NodeId, m: Payload): seq<Step> {
    [Deliver(Packet(v, u, m), true), Handle(u, 0, Success, false)]
  }

  /** One payload arrives at `u`, is not recognised, and is relayed to `w`. */
  lemma PassOne(longSize: nat, s: Net, v: NodeId, u: NodeId, w: NodeId, ms: seq<Payload>, q: seq<Payload>, i: nat)
      returns (s': Net)
    requires ms != [] && Distinct(ms) && i < |ms| && (q == [] || q == ms[1..]) && ms[i].kind == Block
    requires Midway(s, v, u, w, ms, q, i)
    ensures Midway(s', v, u, w, ms, q, i + 1)
    ensures Run(Triangle(|ms| - 1, longSize), s, PassSteps(v, u, ms[i]), s')
  {
    hide Receive, Handled, Link, LastN, Distinct, Run, Waiting, Enabled, Next;
    var cfg := Triangle(|ms| - 1, longSize);
    var p := Packet(v, u, ms[i]);
    NodePasses(cfg, s.nodes[u], p, ms, q, i);
    LinksPass(s.flight, v, u, w, ms, i);
    var n2 := Handled(Receive(cfg, s.nodes[u], p, true), 0, Success, false);
    s' := Net(s.nodes[u := n2], s.flight - multiset{p} + multiset{Packet(u, w, ms[i])});
    MovedOn(s, s', v, u, w, ms, q, i);
    DeliverAndHandle(longSize, s, v, u, w, ms, i);
  }

  lemma DeliverAndHandle(longSize: nat, s: Net, v: NodeId, u: NodeId, w: NodeId, ms: seq<Payload>, i: nat)
    requires i < |ms| && ms[i].kind == Block && Corner(v, u, w) && |s.nodes| == 3
    requires Packet(v, u, ms[i]) in s.flight
    requires Receive(Triangle(|ms| - 1, longSize), s.nodes[u], Packet(v, u, ms[i]), true).inbound == [Packet(v, u, ms[i])]
    ensures var cfg, p := Triangle(|ms| - 1, longSize), Packet(v, u, ms[i]);
            var n1 := Receive(cfg, s.nodes[u], p, true);
            Run(cfg, s, PassSteps(v, u, ms[i]),
                Net(s.nodes[u := Handled(n1, 0, Success, false)], s.flight - multiset{p} + multiset{Packet(u, w, ms[i])}))
  {
    hide Receive, Handled, Run, Sends;
    var cfg, p := Triangle(|ms| - 1, longSize), Packet(v, u, ms[i]);
    var n1 := Receive(cfg, s.nodes[u], p, true);
    OnlyOtherPeer(|ms| - 1, longSize, v, u, w, ms[i]);
    var s1 := Next(cfg, s, Deliver(p, true));
    assert s1 == Net(s.nodes[u := n1], s.flight - multiset{p});
    assert s1.nodes[u := Handled(n1, 0, Success, false)] == s.nodes[u := Handled(n1, 0, Success, false)];
    TwoSteps(cfg, s, Deliver(p, true), Handle(u, 0, Success, false));
  }

  lemma Swap(f: multiset<Packet>, a: multiset<Packet>, b: multiset<Packet>, p: Packet, q: Packet)
    requires a + (multiset{p} + b) <= f
    ensures (a + multiset{q}) + b <= f - multiset{p} + multiset{q}
  {
  }

  lemma TwoSteps(cfg: Config, s: Net, a: Step, b: Step)
    requires Enabled(cfg, s, a) && Enabled(cfg, Next(cfg, s, a), b)
    ensures Run(cfg, s, [a, b], Next(cfg, Next(cfg, s, a), b))
  {
    assert [a, b][1..] == [b] && [b][1..] == [];
  }

  lemma {:induction false} RunConcat(cfg: Config, s: Net, a: seq<Step>, s1: Net, b: seq<Step>, s2: Net)
    requires Run(cfg, s, a, s1) && Run(cfg, s1, b, s2)
    ensures Run(cfg, s, a + b, s2)
    ensures Deliveries(a + b) == Deliveries(a) + Deliveries(b)
    ensures Originated(cfg, a + b) == Originated(cfg, a) + Originated(cfg, b)
    decreases |a|
  {
    hide Enabled, Next, Gain, Cost;
    if a == [] {
      assert a + b == b;
    } else {
      assert (a + b)[1..] == a[1..] + b;
      RunConcat(cfg, Next(cfg, s, a[0]), a[1..], s1, b, s2);
    }
  }

  lemma PassCounts(cfg: Config, v: NodeId, u: NodeId, m: Payload)
    ensures Deliveries(PassSteps(v, u, m)) == 1 && Originated(cfg, PassSteps(v, u, m)) == 0
    ensures forall t :: t in PassSteps(v, u, m) ==> !t.Originate?
  {
    var one := PassSteps(v, u, m);
    var h := [Handle(u, 0, Success, false)];
    assert one[1..] == h && h[1..] == [];
    assert Deliveries(h) == 0 && Originated(cfg, h) == 0;
  }

  lemma AllPassed(s: Net, v: NodeId, u: NodeId, w: NodeId, ms: seq<Payload>, q: seq<Payload>)
    requires ms != [] && (q == [] || q == ms[1..]) && Midway(s, v, u, w, ms, q, |ms|)
    ensures Loaded(s, u, w, ms)
  {
    assert ms[..|ms|] == ms && ms[|ms|..] == [];
    QueueAfterAll(ms, q);
    forall x | 0 <= x < 3 ensures Waiting(s.nodes[x], ms) {
      assert x == u || x == v || x == w;
    }
  }

  lemma Stay(cfg: Config, s: Net)
    ensures Run(cfg, s, [], s) && Deliveries([]) == 0 && Originated(cfg, []) == 0
  {
  }

  /** All remaining payloads pass through `u`. */
  lemma {:induction false} PassAll(longSize: nat, s: Net, v: NodeId, u: NodeId, w: NodeId, ms: seq<Payload>, q: seq<Payload>, i: nat)
      returns (steps: seq<Step>, s': Net)
    requires ms != [] && Distinct(ms) && i <= |ms| && (q == [] || q == ms[1..])
    requires forall j :: 0 <= j < |ms| ==> ms[j].kind == Block
    requires Midway(s, v, u, w, ms, q, i)
    ensures Run(Triangle(|ms| - 1, longSize), s, steps, s') && Loaded(s', u, w, ms)
    ensures Deliveries(steps) == |ms| - i && Originated(Triangle(|ms| - 1, longSize), steps) == 0
    ensures forall t :: t in steps ==> !t.Originate?
    decreases |ms| - i
  {
    hide Run, Midway, Loaded, Deliveries, Originated, PassSteps, Distinct;
    var cfg := Triangle(|ms| - 1, longSize);
    if i == |ms| {
      steps, s' := [], s;
      Stay(cfg, s);
      AllPassed(s, v, u, w, ms, q);
    } else {
      var one := PassSteps(v, u, ms[i]);
      var s1 := PassOne(longSize, s, v, u, w, ms, q, i);
      var rest;
      rest, s' := PassAll(longSize, s1, v, u, w, ms, q, i + 1);
      RunConcat(cfg, s, one, s1, rest, s');
      PassCounts(cfg, v, u, ms[i]);
      steps := one + rest;
    }
  }

  lemma Hop(longSize: nat, s: Net, v: NodeId, u: NodeId, w: NodeId, ms: seq<Payload>) returns (steps: seq<Step>, s': Net)
    requires ms != [] && Distinct(ms) && Corner(v, u, w) && Loaded(s, v, u, ms)
    requires forall j :: 0 <= j < |ms| ==> ms[j].kind == Block
    ensures Run(Triangle(|ms| - 1, longSize), s, steps, s') && Loaded(s', u, w, ms)
    ensures Deliveries(steps) == |ms| && Originated(Triangle(|ms| - 1, longSize), steps) == 0
    ensures forall t :: t in steps ==> !t.Originate?
  {
    var q := s.nodes[u].blocks;
    assert ms[..0] == [] && ms[0..] == ms && q + [] == q;
    assert LastN(q, |ms| - 1) == q;
    assert Link(u, w, ms[..0]) == multiset{};
    steps, s' := PassAll(longSize, s, v, u, w, ms, q, 0);
  }

  /** Once round the triangle, and everything is as it was. */
  lemma Round(longSize: nat, s: Net, ms: seq<Payload>) returns (steps: seq<Step>, s': Net)
    requires ms != [] && Distinct(ms) && Loaded(s, 0, 1, ms)
    requires forall j :: 0 <= j < |ms| ==> ms[j].kind == Block
    ensures Run(Triangle(|ms| - 1, longSize), s, steps, s') && Loaded(s', 0, 1, ms)
    ensures Deliveries(steps) == 3 * |ms| && Originated(Triangle(|ms| - 1, longSize), steps) == 0
    ensures forall t :: t in steps ==> !t.Originate?
  {
    hide Run, Deliveries, Originated, Loaded;
    var cfg := Triangle(|ms| - 1, longSize);
    var a, s1 := Hop(longSize, s, 0, 1, 2, ms);
    var b, s2 := Hop(longSize, s1, 1, 2, 0, ms);
    var c, s3 := Hop(longSize, s2, 2, 0, 1, ms);
    RunConcat(cfg, s, a, s1, b, s2);
    RunConcat(cfg, s, a + b, s2, c, s3);
    steps, s' := a + b + c, s3;
  }

  lemma {:induction false} Rounds(longSize: nat, s: Net, ms: seq<Payload>, n: nat) returns (steps: seq<Step>, s': Net)
    requires ms != [] && Distinct(ms) && Loaded(s, 0, 1, ms)
    requires forall j :: 0 <= j < |ms| ==> ms[j].kind == Block
    ensures Run(Triangle(|ms| - 1, longSize), s, steps, s')
    ensures Deliveries(steps) >= n && Originated(Triangle(|ms| - 1, longSize), steps) == 0
    ensures forall t :: t in steps ==> !t.Originate?
    decreases n
  {
    hide Loaded;
    if n == 0 {
      steps, s' := [], s;
    } else {
      var a, s1 := Round(longSize, s, ms);
      var b;
      b, s' := Rounds(longSize, s1, ms, n - 1);
      RunConcat(Triangle(|ms| - 1, longSize), s, a, s1, b, s');
      steps := a + b;
    }
  }

  /** Node 0 broadcasts all payloads, one by one. */
  lemma {:induction false} Seed(cfg: Config, s: Net, ms: seq<Payload>) returns (steps: seq<Step>, s': Net)
    requires |s.nodes| == |cfg.peers| && 0 < |cfg.peers| && 1 in cfg.peers[0] && |cfg.peers[0]| == 2
    ensures Run(cfg, s, steps, s')
    ensures s'.nodes == s.nodes && s.flight + Link(0, 1, ms) <= s'.flight
    ensures Deliveries(steps) == 0 && Originated(cfg, steps) == 2 * |ms|
    ensures forall t :: t in steps ==> t.Originate? && t.m in ms
    decreases |ms|
  {
    hide Run, Deliveries, Originated, Next, Enabled;
    if ms == [] {
      steps, s' := [], s;
      Stay(cfg, s);
    } else {
      var s1 := SeedOne(cfg, s, ms[0]);
      var rest;
      rest, s' := Seed(cfg, s1, ms[1..]);
      RunConcat(cfg, s, [Originate(0, ms[0])], s1, rest, s');
      steps := [Originate(0, ms[0])] + rest;
    }
  }

  lemma SeedOne(cfg: Config, s: Net, m: Payload) returns (s': Net)
    requires |s.nodes| == |cfg.peers| && 0 < |cfg.peers| && 1 in cfg.peers[0]
    ensures Run(cfg, s, [Originate(0, m)], s')
    ensures s'.nodes == s.nodes && s.flight + multiset{Packet(0, 1, m)} <= s'.flight
    ensures Deliveries([Originate(0, m)]) == 0 && Originated(cfg, [Originate(0, m)]) == |cfg.peers[0]|
  {
    s' := Next(cfg, s, Originate(0, m));
    assert [Originate(0, m)][1..] == [];
    assert Packet(0, 1, m) in Copies(0, cfg.peers[0] - {}, m);
  }

  /**
    Neither protection: for every capacity, with one payload more than the capacity and a
    consensus layer that answers `Success` to blocks it has accepted before, there are runs
    with as many deliveries as one likes after `capacity + 1` broadcasts by one node. Beyond
    eight deliveries per payload such a run must contain a second acceptance of a payload.
   */
  lemma FloodingNeedNotEnd(capacity: nat, longSize: nat, n: nat) returns (steps: seq<Step>, s: Net)
    ensures var cfg, payloads := Triangle(capacity, longSize), Elements(Blocks(capacity));
            && Run(cfg, Start(cfg), steps, s)
            && (forall i :: 0 <= i < |steps| ==> Within(steps[i], payloads))
            && |payloads| == capacity + 1
            && Originated(cfg, steps) == 2 * (capacity + 1)
            && Deliveries(steps) >= n
            && (n > 8 * (capacity + 1) ==> !AnswersOnce(cfg, steps))
  {
    hide Run, Next, Deliveries, Originated, Link, AnswersOnce, Degrees;
    var cfg, ms := Triangle(capacity, longSize), Blocks(capacity);
    var a, s1 := Seed(cfg, Start(cfg), ms);
    assert |cfg.peers[0]| == 2;
    var b;
    b, s := Rounds(longSize, s1, ms, n);
    RunConcat(cfg, Start(cfg), a, s1, b, s);
    steps := a + b;
    DistinctElements(ms);
    if AnswersOnce(cfg, steps) {
      FloodingEndsByAnswers(cfg, Elements(ms), steps, s);
      SixLinks(capacity, longSize);
    }
  }

  lemma {:induction false} DistinctElements<T>(s: seq<T>)
    requires Distinct(s)
    ensures |Elements(s)| == |s|
    decreases |s|
  {
    if s == [] {
      assert Elements(s) == {};
    } else {
      var init, last := s[..|s| - 1], s[|s| - 1];
      DistinctElements(init);
      assert s == init + [last];
      assert Elements(s) == Elements(init) + {last};
    }
  }

  lemma SixLinks(capacity: nat, longSize: nat)
    ensures Degrees(Triangle(capacity, longSize).peers) == 6
  {
    var peers := Triangle(capacity, longSize).peers;
    assert peers[..2] == [{1, 2}, {0, 2}] && peers[..2][..1] == [{1, 2}];
    assert Degrees(peers[..2][..1]) == 2 && Degrees(peers[..2]) == 4;
  }
}
