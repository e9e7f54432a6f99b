/** Packet types and the answers of the consensus layer, as far as peers and relaying depend on them. */
module Consensus {

  type PeerId = nat

  datatype PacketType = Block | Transaction | FinalizationRecord | FinalizationMessage | CatchUpStatus

  datatype DistributionMode = Direct | Broadcast

  datatype Response =
    | BakerNotFound | Success | DeserializationError | InvalidResult | PendingBlock | PendingFinalization
    | Asynchronous | DuplicateEntry | Stale | IncorrectFinalizationSession | Unverifiable | ContinueCatchUp
    | BlockTooEarly | MissingImportFile | ConsensusShutDown | ExpiryTooLate | VerificationFailed
    | NonexistingSenderAccount | DuplicateNonce | NonceTooLarge | TooLowEnergy | InvalidGenesisIndex
    | DuplicateAccountRegistrationID | CredentialDeploymentInvalidSignatures | CredentialDeploymentInvalidIP
    | CredentialDeploymentInvalidAR | CredentialDeploymentExpired | ChainUpdateInvalidEffectiveTime
    | ChainUpdateSequenceNumberTooOld | ChainUpdateInvalidSignatures | MaxBlockEnergyExceeded
    | InsufficientFunds | DoubleSign

  predicate IsPending(r: Response) {
    r in {PendingBlock, PendingFinalization, InvalidGenesisIndex, Unverifiable}
  }

  /** Which packet types may be relayed at all. */
  predicate TypeRebroadcastable(t: PacketType) {
    t != CatchUpStatus
  }

  /** Whether an answer of the consensus layer lets a packet be relayed. */
  predicate AnswerRebroadcastable(r: Response, t: PacketType) {
    match r
    case PendingBlock => t != Block
    case Success => true
    case PendingFinalization => true
    case Asynchronous => true
    case _ => false
  }
}
