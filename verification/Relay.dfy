/** Which connections a broadcast packet is sent to. */
module Relay {
  import opened Consensus

  /** An established connection, as far as broadcasts are concerned. */
  datatype Peer = Peer(isBootstrapper: bool, networks: set<nat>)

  predicate ValidBroadcastTarget(conns: map<PeerId, Peer>, id: PeerId, skip: set<PeerId>, network: nat)
    requires id in conns
  {
    !conns[id].isBootstrapper && id !in skip && network in conns[id].networks
  }

  /** The connections a broadcast goes to. */
  function Recipients(conns: map<PeerId, Peer>, skip: set<PeerId>, network: nat): set<PeerId> {
    set id | id in conns && ValidBroadcastTarget(conns, id, skip, network)
  }

  /** Those it could go to if nobody were skipped. */
  function Eligible(conns: map<PeerId, Peer>, network: nat): set<PeerId> {
    Recipients(conns, {}, network)
  }

  /** The node peers that the random choice is made from. */
  function Candidates(conns: map<PeerId, Peer>, dontRelayTo: set<PeerId>): set<PeerId> {
    set id | id in conns && !conns[id].isBootstrapper && id !in dontRelayTo
  }

  function PeersToTake(n: nat, percentage: real): int {
    (n as real * percentage).Floor
  }

  /** The random choice below full relaying: any candidates, as many as the percentage says. */
  ghost predicate IsSample(conns: map<PeerId, Peer>, dontRelayTo: set<PeerId>, percentage: real, sample: set<PeerId>) {
    var candidates := Candidates(conns, dontRelayTo);
    sample <= candidates && |sample| == PeersToTake(|candidates|, percentage)
  }

  /** The peers that are skipped: the excluded ones, or below full relaying the chosen ones. */
  function PeersToSkip(percentage: real, dontRelayTo: set<PeerId>, sample: set<PeerId>): set<PeerId> {
    if percentage < 1.0 then sample else dontRelayTo
  }

  /** With full relaying a broadcast goes to exactly the eligible peers that are not excluded. */
  lemma FullRelaying(conns: map<PeerId, Peer>, dontRelayTo: set<PeerId>, sample: set<PeerId>, network: nat)
    ensures forall id :: id in Recipients(conns, PeersToSkip(1.0, dontRelayTo, sample), network) <==>
              id in conns && !conns[id].isBootstrapper && network in conns[id].networks && id !in dontRelayTo
    ensures Recipients(conns, PeersToSkip(1.0, dontRelayTo, sample), network) == Eligible(conns, network) - dontRelayTo
  {
  }

  /** No more candidates are taken than there are, and never all of them. */
  lemma TakesFewer(n: nat, percentage: real)
    requires 0.0 <= percentage < 1.0
    ensures 0 <= PeersToTake(n, percentage) <= n
    ensures n > 0 ==> PeersToTake(n, percentage) < n
    ensures PeersToTake(n, percentage) as real <= n as real * percentage < PeersToTake(n, percentage) as real + 1.0
  {
    var x := n as real * percentage;
    Scaled(n as real, percentage);
    FloorWithin(x, n);
  }

  lemma FloorWithin(x: real, n: nat)
    requires 0.0 <= x <= n as real
    ensures 0 <= x.Floor <= n
    ensures x < n as real ==> x.Floor < n
    ensures x.Floor as real <= x < x.Floor as real + 1.0
  {
    assert x.Floor as real <= x;
  }

  lemma Scaled(x: real, percentage: real)
    requires x >= 0.0 && 0.0 <= percentage < 1.0
    ensures 0.0 <= x * percentage <= x
    ensures x > 0.0 ==> x * percentage < x
  {
    assert x * (1.0 - percentage) >= 0.0;
    if x > 0.0 {
      assert x * (1.0 - percentage) > 0.0;
    }
  }

  /**
    What happens below full relaying: the chosen peers are the ones left out. A broadcast goes
    to exactly the other eligible peers, among them every eligible excluded one. Where all
    candidates are in the network, it reaches n less the number to take of them, which is the
    number to take only if that is half of n.
   */
  lemma BelowFullRelaying(conns: map<PeerId, Peer>, dontRelayTo: set<PeerId>, percentage: real, sample: set<PeerId>, network: nat)
    requires 0.0 <= percentage < 1.0 && IsSample(conns, dontRelayTo, percentage, sample)
    ensures var recipients := Recipients(conns, PeersToSkip(percentage, dontRelayTo, sample), network);
            var candidates := Candidates(conns, dontRelayTo);
            && recipients == Eligible(conns, network) - sample
            && (forall id :: id in recipients <==>
                  id in conns && !conns[id].isBootstrapper && network in conns[id].networks && id !in sample)
            && Eligible(conns, network) * dontRelayTo <= recipients
            && |recipients - dontRelayTo| >= |Eligible(conns, network) - dontRelayTo| - PeersToTake(|candidates|, percentage)
            && (candidates <= Eligible(conns, network) ==>
                  var n, take := |candidates|, PeersToTake(|candidates|, percentage);
                  && |recipients - dontRelayTo| == n - take
                  && (|recipients - dontRelayTo| == take <==> n == 2 * take))
  {
    var recipients := Recipients(conns, PeersToSkip(percentage, dontRelayTo, sample), network);
    var others := Eligible(conns, network) - dontRelayTo;
    assert recipients - dontRelayTo == others - sample;
    assert others == (others - sample) + (others * sample);
    Smaller(others * sample, sample);
    if Candidates(conns, dontRelayTo) <= Eligible(conns, network) {
      assert others == Candidates(conns, dontRelayTo);
      assert others * sample == sample;
    }
  }

  lemma Smaller(a: set<PeerId>, b: set<PeerId>)
    requires a <= b
    ensures |a| <= |b|
  {
    assert b == a + (b - a);
  }

  /** No excluded peer is sent the packet if and only if relaying is full or no excluded peer is eligible. */
  lemma ExclusionsHonoured(conns: map<PeerId, Peer>, dontRelayTo: set<PeerId>, percentage: real, sample: set<PeerId>, network: nat)
    requires 0.0 <= percentage <= 1.0
    requires percentage < 1.0 ==> IsSample(conns, dontRelayTo, percentage, sample)
    ensures Recipients(conns, PeersToSkip(percentage, dontRelayTo, sample), network) !! dontRelayTo
            <==> percentage == 1.0 || Eligible(conns, network) !! dontRelayTo
  {
    if percentage < 1.0 {
      BelowFullRelaying(conns, dontRelayTo, percentage, sample, network);
    } else {
      FullRelaying(conns, dontRelayTo, sample, network);
    }
  }

  const THREE_PEERS: map<PeerId, Peer> := map[1 := Peer(false, {100}), 2 := Peer(false, {100}), 3 := Peer(false, {100})]

  /**
    Three peers, relaying to three quarters of the peers, a packet that came from peer 1: it is
    sent back to peer 1, and besides to just one of the other two, whichever is not chosen.
   */
  lemma SentBackToItsSource(sample: set<PeerId>)
    requires IsSample(THREE_PEERS, {1}, 0.75, sample)
    ensures var recipients := Recipients(THREE_PEERS, PeersToSkip(0.75, {1}, sample), 100);
            1 in recipients && |sample| == 1 && recipients == {1, 2, 3} - sample
  {
    assert Candidates(THREE_PEERS, {1}) == {2, 3};
    assert Eligible(THREE_PEERS, 100) == {1, 2, 3};
    BelowFullRelaying(THREE_PEERS, {1}, 0.75, sample, 100);
  }
}
