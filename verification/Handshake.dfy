/** The checks made on a handshake: genesis blocks and wire protocol versions. */
module Handshakes {
  import opened Common

  type Hash = nat
  type Version = nat

  // ----- genesis blocks

  /** Find the first position at which two lists of genesis block hashes differ, as far as both go. */
  method FirstDifference(ours: seq<Hash>, theirs: seq<Hash>) returns (at: Option<nat>)
    ensures at == Difference(ours, theirs)
    ensures at.None? <==> ours <= theirs || theirs <= ours
    ensures at.Some? ==>
              at.value < |ours| && at.value < |theirs| && ours[at.value] != theirs[at.value]
              && ours[..at.value] == theirs[..at.value]
  {
    for i := 0 to Min(|ours|, |theirs|)
      invariant ours[..i] == theirs[..i]
    {
      if ours[i] != theirs[i] {
        DifferenceAt(ours, theirs, i);
        return Some(i);
      }
    }
    NoDifference(ours, theirs);
    return None;
  }

  function Difference(ours: seq<Hash>, theirs: seq<Hash>): Option<nat> {
    if ours == [] || theirs == [] then None
    else if ours[0] != theirs[0] then Some(0)
    else
      match Difference(ours[1..], theirs[1..])
      case None => None
      case Some(i) => Some(i + 1)
  }

  lemma {:induction false} DifferenceAt(ours: seq<Hash>, theirs: seq<Hash>, i: nat)
    requires i < |ours| && i < |theirs| && ours[i] != theirs[i] && ours[..i] == theirs[..i]
    ensures Difference(ours, theirs) == Some(i)
    ensures !(ours <= theirs || theirs <= ours)
    decreases i
  {
    if i == 0 {
    } else {
      assert ours[0] == ours[..i][0] == theirs[..i][0];
      assert ours[1..][..i - 1] == ours[..i][1..] && theirs[1..][..i - 1] == theirs[..i][1..];
      DifferenceAt(ours[1..], theirs[1..], i - 1);
    }
  }

  lemma {:induction false} NoDifference(ours: seq<Hash>, theirs: seq<Hash>)
    requires var n := Min(|ours|, |theirs|); ours[..n] == theirs[..n]
    ensures Difference(ours, theirs).None?
    ensures ours <= theirs || theirs <= ours
    decreases |ours|
  {
    var n := Min(|ours|, |theirs|);
    if n == 0 {
    } else {
      assert ours[0] == ours[..n][0] == theirs[..n][0];
      assert ours[1..][..n - 1] == ours[..n][1..] && theirs[1..][..n - 1] == theirs[..n][1..];
      NoDifference(ours[1..], theirs[1..]);
    }
  }

  predicate GenesisAccepted(ours: seq<Hash>, theirs: seq<Hash>) {
    Difference(ours, theirs).None?
  }

  /** The check accepts exactly when one list is a prefix of the other. */
  lemma {:induction false} GenesisAcceptedIffPrefix(ours: seq<Hash>, theirs: seq<Hash>)
    ensures GenesisAccepted(ours, theirs) <==> ours <= theirs || theirs <= ours
    decreases |ours|
  {
    if ours == [] || theirs == [] {
    } else {
      GenesisAcceptedIffPrefix(ours[1..], theirs[1..]);
      assert ours == [ours[0]] + ours[1..] && theirs == [theirs[0]] + theirs[1..];
    }
  }

  /** Both ends decide alike, and two nodes that follow one chain accept each other whenever they meet. */
  lemma GenesisAgreement(ours: seq<Hash>, theirs: seq<Hash>, chain: seq<Hash>)
    ensures GenesisAccepted(ours, theirs) <==> GenesisAccepted(theirs, ours)
    ensures ours <= chain && theirs <= chain ==> GenesisAccepted(ours, theirs)
  {
    GenesisAcceptedIffPrefix(ours, theirs);
    GenesisAcceptedIffPrefix(theirs, ours);
    if ours <= chain && theirs <= chain {
      assert ours == chain[..|ours|] && theirs == chain[..|theirs|];
    }
  }

  // ----- wire protocol versions

  /** The first of our versions that the other end also supports. */
  function CommonVersion(ours: seq<Version>, theirs: seq<Version>): Option<Version> {
    if ours == [] then None
    else if ours[0] in theirs then Some(ours[0])
    else CommonVersion(ours[1..], theirs)
  }

  ghost predicate Descending(vs: seq<Version>) {
    forall i, j :: 0 <= i < j < |vs| ==> vs[i] >= vs[j]
  }

  /** From a descending list, the choice is the highest version both support; there is none only if nothing is shared. */
  lemma {:induction false} HighestCommon(ours: seq<Version>, theirs: seq<Version>)
    requires Descending(ours)
    ensures match CommonVersion(ours, theirs)
            case None => forall v :: v in ours ==> v !in theirs
            case Some(v) => v in ours && v in theirs && forall x :: x in ours && x in theirs ==> x <= v
    decreases |ours|
  {
    if ours == [] {
    } else {
      assert ours == [ours[0]] + ours[1..];
      if ours[0] !in theirs {
        HighestCommon(ours[1..], theirs);
      } else {
        forall x | x in ours ensures x <= ours[0] {
          var i :| 0 <= i < |ours| && ours[i] == x;
        }
      }
    }
  }

  /** Both ends choose the same version, if both list theirs in descending order. */
  lemma VersionAgreement(ours: seq<Version>, theirs: seq<Version>)
    requires Descending(ours) && Descending(theirs)
    ensures CommonVersion(ours, theirs) == CommonVersion(theirs, ours)
  {
    HighestCommon(ours, theirs);
    HighestCommon(theirs, ours);
    var a, b := CommonVersion(ours, theirs), CommonVersion(theirs, ours);
    if a.Some? && b.Some? {
      assert a.value <= b.value && b.value <= a.value;
    }
  }

  // ----- the whole decision

  const MAX_PEER_NETWORKS: nat := 20

  /** What a node announces about itself, as far as the other end checks it. */
  datatype Handshake = Handshake(
    major: nat, minor: nat, wireVersions: seq<Version>, networks: nat, genesisBlocks: seq<Hash>)

  datatype Verdict = Accepted(wireVersion: Version) | Rejected(reason: Reason)
  datatype Reason = IncompatibleClient | NoWireVersions | IncompatibleWireVersions | TooManyNetworks | DifferentGenesis

  predicate CompatibleVersion(major: nat, minor: nat) {
    (2 <= major <= 3) || (major == 4 && minor >= 1) || major >= 5
  }

  /** The first check that fails gives the reason. */
  function Check(us: Handshake, them: Handshake): Verdict {
    if !CompatibleVersion(them.major, them.minor) then Rejected(IncompatibleClient)
    else if them.wireVersions == [] then Rejected(NoWireVersions)
    else
      match CommonVersion(us.wireVersions, them.wireVersions)
      case None => Rejected(IncompatibleWireVersions)
      case Some(version) =>
        if them.networks > MAX_PEER_NETWORKS then Rejected(TooManyNetworks)
        else if !GenesisAccepted(us.genesisBlocks, them.genesisBlocks) then Rejected(DifferentGenesis)
        else Accepted(version)
  }

  /** Version 2 and later, except 4.0. */
  predicate GoodVersion(major: nat, minor: nat) {
    major >= 2 && !(major == 4 && minor == 0)
  }

  /** Which handshakes are rejected for what, in the order of the checks. */
  lemma CheckEffect(us: Handshake, them: Handshake)
    ensures var verdict := Check(us, them);
            var shared := exists v :: v in us.wireVersions && v in them.wireVersions;
            var versions := GoodVersion(them.major, them.minor);
            && (verdict == Rejected(IncompatibleClient) <==> !versions)
            && (verdict == Rejected(NoWireVersions) <==> versions && them.wireVersions == [])
            && (verdict == Rejected(IncompatibleWireVersions) <==> versions && them.wireVersions != [] && !shared)
            && (verdict == Rejected(TooManyNetworks) <==> versions && shared && them.networks > 20)
            && (verdict == Rejected(DifferentGenesis) <==>
                  && versions && shared && them.networks <= 20
                  && !(us.genesisBlocks <= them.genesisBlocks || them.genesisBlocks <= us.genesisBlocks))
  {
    SharedVersion(us.wireVersions, them.wireVersions);
    GenesisAcceptedIffPrefix(us.genesisBlocks, them.genesisBlocks);
  }

  lemma {:induction false} SharedVersion(ours: seq<Version>, theirs: seq<Version>)
    ensures CommonVersion(ours, theirs).Some? <==> exists v :: v in ours && v in theirs
    decreases |ours|
  {
    if ours == [] {
    } else {
      SharedVersion(ours[1..], theirs);
      assert ours == [ours[0]] + ours[1..];
    }
  }

  /**
    A connection comes about between two nodes exactly when each is compatible by itself, they
    share a wire version, and one's genesis blocks are a prefix of the other's. Both ends then
    speak the same version, the highest they share.
   */
  lemma MutualAcceptance(a: Handshake, b: Handshake)
    requires Descending(a.wireVersions) && Descending(b.wireVersions)
    ensures Check(a, b).Accepted? && Check(b, a).Accepted? <==>
              && GoodVersion(a.major, a.minor) && GoodVersion(b.major, b.minor)
              && a.networks <= 20 && b.networks <= 20
              && (exists v :: v in a.wireVersions && v in b.wireVersions)
              && (a.genesisBlocks <= b.genesisBlocks || b.genesisBlocks <= a.genesisBlocks)
    ensures Check(a, b).Accepted? && Check(b, a).Accepted? ==> Check(a, b) == Check(b, a)
    ensures Check(a, b).Accepted? ==>
              var v := Check(a, b).wireVersion;
              && v in a.wireVersions && v in b.wireVersions
              && forall x :: x in a.wireVersions && x in b.wireVersions ==> x <= v
  {
    HighestCommon(a.wireVersions, b.wireVersions);
    VersionAgreement(a.wireVersions, b.wireVersions);
    GenesisAcceptedIffPrefix(a.genesisBlocks, b.genesisBlocks);
    GenesisAcceptedIffPrefix(b.genesisBlocks, a.genesisBlocks);
  }
}
