/** The messages the participants exchange (message.rs). */
module Messages {
  import opened Wrappers
  import opened Blocks
  import opened Votes
  import opened Queries

  datatype Request =
    | HereIsCommit(round: RoundNumber, commit: Commit)
    | HereAreBlocks(blocks: seq<Block>)
    | WhyDidEstimateForRoundNotIncludeBlock(estimateRound: RoundNumber, blockNotIncluded: BlockNumber)
    | WhichPrevotesSeenInRound(prevotesRound: RoundNumber)

  datatype Response =
    | RequestBlock(blockNumber: BlockNumber)
    | ExplainEstimate(explainedRound: RoundNumber, explanation: QueryResponse)
    | PrevotesSeen(seenRound: RoundNumber, seen: QueryResponse)

  datatype Payload = Request(request: Request) | Response(response: Response)
  {
    /** The request carried, if this is a request. */
    function GetRequest(): (r: Option<Request>)
      ensures r.Some? <==> this.Request?
      ensures r.Some? ==> Payload.Request(r.value) == this
    {
      match this
      case Request(request) => Some(request)
      case Response(_) => None
    }

    /** The response carried, if this is a response. */
    function GetResponse(): (r: Option<Response>)
      ensures r.Some? <==> this.Response?
      ensures r.Some? ==> Payload.Response(r.value) == this
    {
      match this
      case Request(_) => None
      case Response(response) => Some(response)
    }
  }

  /** Wrapping a request or a response and asking for it back gives it back,
      and a payload is exactly one of the two. */
  lemma PayloadRoundTrip(q: Request, s: Response)
    ensures Payload.Request(q).GetRequest() == Some(q) && Payload.Request(q).GetResponse() == None
    ensures Payload.Response(s).GetResponse() == Some(s) && Payload.Response(s).GetRequest() == None
  {
  }

  datatype Message = Message(sender: VoterId, receiver: VoterId, content: Payload)
}
