/** The values the accountable-safety engine and the participants exchange:
    replies to a query, equivocation records, and the queries themselves. */
module Queries {
  import opened Blocks
  import opened Votes

  /** A voter's answer to "why did your estimate not include the block": the
      votes it saw in the previous round. */
  datatype QueryResponse = Prevotes(prevotes: seq<Prevote>) | Precommits(precommits: seq<Precommit>)
  {
    /** The voters of the reply, in order and with repetitions. */
    function Ids(): seq<VoterId>
    {
      match this
      case Prevotes(vs) => seq(|vs|, i requires 0 <= i < |vs| => vs[i].id)
      case Precommits(vs) => seq(|vs|, i requires 0 <= i < |vs| => vs[i].id)
    }

    /** The blocks the reply's votes are for, in the same order as `Ids`. */
    function TargetNumbers(): seq<BlockNumber>
    {
      match this
      case Prevotes(vs) => seq(|vs|, i requires 0 <= i < |vs| => vs[i].targetNumber)
      case Precommits(vs) => seq(|vs|, i requires 0 <= i < |vs| => vs[i].targetNumber)
    }
  }

  /** One voter caught voting for the listed blocks. */
  datatype Equivocation = Equivocation(voter: VoterId, blocks: seq<BlockNumber>)

  /** What a cross-check or a reply check found. */
  datatype EquivocationDetected =
    | Prevote(prevoteEquivocations: seq<Equivocation>)
    | Precommit(precommitEquivocations: seq<Equivocation>)
    | InvalidResponse(reason: string)

  /** Asks the receivers why their estimate in `round` did not include `blockNotIncluded`. */
  datatype Query = Query(round: RoundNumber, receivers: seq<VoterId>, blockNotIncluded: BlockNumber)

  /** Asks the receivers which prevotes they saw in `round`. */
  datatype PrevoteQuery = PrevoteQuery(round: RoundNumber, receivers: seq<VoterId>)

  /** The follow-up question the engine wants asked. */
  datatype NextQuery = AskAboutRound(query: Query) | PrevotesForRound(prevoteQuery: PrevoteQuery)
}
