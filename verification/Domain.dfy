/** Records that several cycles exchange. */
module Domain {

  datatype Relation = Relation(
    contractAddr: string, providerPubkey: string, providerAddress: string, bagID: string, size: nat)

  datatype Reason =
    | ValidStorageProof
    | IPNotFound | NotFound | UnavailableProvider | CantCreatePeer | UnknownPeer
    | PingFailed | InvalidBagID | FailedInitialPing
    | GetInfoFailed | InvalidHeader
    | CantGetPiece | CantParseBoC | ProofCheckFailed

  datatype ProofResult = ProofResult(contractAddr: string, providerAddr: string, reason: Reason)

  /** A contract address and a provider address. */
  type Pair = (string, string)

  function RelationPair(r: Relation): Pair {
    (r.contractAddr, r.providerAddress)
  }

  function ResultPair(r: ProofResult): Pair {
    (r.contractAddr, r.providerAddr)
  }
}
