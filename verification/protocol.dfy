/** The accountable-safety engine (protocol.rs): starting from a commit that a
    later finalized block does not include, it queries the voters round by
    round, backwards, keeping the replies it receives per round. */
module Protocol {
  import opened Wrappers
  import opened Seqs
  import opened Blocks
  import opened Votes
  import opened Queries
  import opened Ledger
  import opened Voting

  /** The questioning about one round: who was asked and what each answered. */
  datatype QueryState = QueryState(round: RoundNumber, voters: seq<VoterId>, responses: map<VoterId, seq<Precommit>>)
  {
    /** QueryState::add_response: the voter's reply is kept, replacing any
        earlier reply of the same voter; nothing else changes. */
    function AddResponse(voter: VoterId, precommits: seq<Precommit>): (s: QueryState)
      ensures s.round == round && s.voters == voters
      ensures s.responses.Keys == responses.Keys + {voter}
      ensures s.responses[voter] == precommits
      ensures forall v | v in responses && v != voter :: s.responses[v] == responses[v]
    {
      this.(responses := responses[voter := precommits])
    }
  }

  /** Each state is filed under its own round number. */
  ghost predicate RoundsFiled(rounds: map<RoundNumber, QueryState>)
  {
    forall r | r in rounds :: rounds[r].round == r
  }

  /** The voters of a reply, each once, in the order they first appear. */
  function ReplyVoters(precommits: seq<Precommit>): (ids: seq<VoterId>)
    ensures NoDuplicates(ids)
    ensures forall v :: v in ids <==> exists p :: p in precommits && p.id == v
    ensures InFirstOccurrenceOrder(ids, seq(|precommits|, i requires 0 <= i < |precommits| => precommits[i].id))
  {
    var all := seq(|precommits|, i requires 0 <= i < |precommits| => precommits[i].id);
    assert forall v :: v in all <==> exists p :: p in precommits && p.id == v by {
      forall v | v in all
        ensures exists p :: p in precommits && p.id == v
      {
        var i :| 0 <= i < |all| && all[i] == v;
        assert precommits[i] in precommits;
      }
      forall v | exists p :: p in precommits && p.id == v
        ensures v in all
      {
        var p :| p in precommits && p.id == v;
        var i :| 0 <= i < |precommits| && precommits[i] == p;
        assert all[i] == v;
      }
    }
    DistinctFirstOccurrenceOrder(all);
    Distinct(all)
  }

  /** What the engine does with a reply to its query about `round`: the new
      querying rounds and the query to send next, if any. A reply about the
      round right after the round of the block not included ends the
      questioning; any other reply opens the previous round, once, asking the
      voters the reply names. The source panics when no state is kept for
      `round`, and when it has to step back from round 0. */
  function ResponseStep(rounds: map<RoundNumber, QueryState>, roundForBlockNotIncluded: RoundNumber,
                        blockNotIncluded: BlockNumber, round: RoundNumber, voter: VoterId,
                        precommits: seq<Precommit>): (step: (map<RoundNumber, QueryState>, Option<Query>))
    requires round in rounds
    requires round != roundForBlockNotIncluded + 1 ==> round >= 1
    // the reply is kept under its voter
    ensures round in step.0 && step.0[round] == rounds[round].AddResponse(voter, precommits)
    // a follow-up query is issued exactly when the questioning goes on and the previous round is new
    ensures step.1.Some? <==> round != roundForBlockNotIncluded + 1 && round - 1 !in rounds
    // only the queried round and, when a query is issued, the previous round change
    ensures step.0.Keys == rounds.Keys + (if step.1.Some? then {round - 1} else {})
    ensures step.1.Some? ==>
      && step.1.value.round + 1 == round
      && step.1.value.blockNotIncluded == blockNotIncluded
      && NoDuplicates(step.1.value.receivers)
      && (forall v :: v in step.1.value.receivers <==> exists p :: p in precommits && p.id == v)
      && step.0[round - 1] == QueryState(round - 1, step.1.value.receivers, map[])
    ensures forall r | r in rounds && r != round :: step.0[r] == rounds[r]
    ensures RoundsFiled(rounds) ==> RoundsFiled(step.0)
  {
    var stored := rounds[round := rounds[round].AddResponse(voter, precommits)];
    if round == roundForBlockNotIncluded + 1 then (stored, None)
    else if round - 1 in stored then (stored, None)
    else
      var receivers := ReplyVoters(precommits);
      (stored[round - 1 := QueryState(round - 1, receivers, map[])], Some(Query(round - 1, receivers, blockNotIncluded)))
  }

  /** A round is opened at most once: after one reply about `round` has been
      handled, no later reply about it asks anything. */
  lemma ResponseStepOnce(rounds: map<RoundNumber, QueryState>, roundForBlockNotIncluded: RoundNumber,
                         blockNotIncluded: BlockNumber, round: RoundNumber,
                         voter1: VoterId, precommits1: seq<Precommit>, voter2: VoterId, precommits2: seq<Precommit>)
    requires round in rounds
    requires round != roundForBlockNotIncluded + 1 ==> round >= 1
    ensures var after := ResponseStep(rounds, roundForBlockNotIncluded, blockNotIncluded, round, voter1, precommits1).0;
      ResponseStep(after, roundForBlockNotIncluded, blockNotIncluded, round, voter2, precommits2).1 == None
  {
  }

  /** The engine's state for one pair of conflicting commits. */
  class AccountableSafety {
    var blockNotIncluded: BlockNumber
    var roundForBlockNotIncluded: RoundNumber
    var commitForBlockNotIncluded: Commit
    var queryingRounds: map<RoundNumber, QueryState>

    ghost predicate Valid()
      reads this
    {
      RoundsFiled(queryingRounds)
    }

    /** AccountableSafety::start: no round is being queried yet. */
    constructor Start(blockNotIncluded: BlockNumber, roundForBlockNotIncluded: RoundNumber, commitForBlockNotIncluded: Commit)
      ensures Valid()
      ensures this.blockNotIncluded == blockNotIncluded
      ensures this.roundForBlockNotIncluded == roundForBlockNotIncluded
      ensures this.commitForBlockNotIncluded == commitForBlockNotIncluded
      ensures queryingRounds == map[]
    {
      this.blockNotIncluded := blockNotIncluded;
      this.roundForBlockNotIncluded := roundForBlockNotIncluded;
      this.commitForBlockNotIncluded := commitForBlockNotIncluded;
      queryingRounds := map[];
    }

    /** Opens (or reopens, dropping earlier replies) the questioning about
        `round` and returns the query to send to `voters`. */
    method StartQueryRound(round: RoundNumber, voters: seq<VoterId>) returns (query: Query)
      requires Valid()
      modifies this`queryingRounds
      ensures Valid()
      ensures queryingRounds == old(queryingRounds)[round := QueryState(round, voters, map[])]
      ensures query == Query(round, voters, blockNotIncluded)
    {
      queryingRounds := queryingRounds[round := QueryState(round, voters, map[])];
      query := Query(round, voters, blockNotIncluded);
    }

    /** Handles `voter`'s reply about `round`. The reply-validity call the
        source makes first has no effect on the state, and the result of the
        cross-check against the commit is discarded, as in the source. `chain`
        is only read by that validity call. */
    method AddResponse(round: RoundNumber, voter: VoterId, precommits: seq<Precommit>, chain: Chain) returns (next: Option<Query>)
      requires Valid()
      requires round in queryingRounds
      requires round != roundForBlockNotIncluded + 1 ==> round >= 1
      modifies this`queryingRounds
      ensures Valid()
      ensures (queryingRounds, next) ==
        ResponseStep(old(queryingRounds), roundForBlockNotIncluded, blockNotIncluded, round, voter, precommits)
    {
      ghost var step := ResponseStep(queryingRounds, roundForBlockNotIncluded, blockNotIncluded, round, voter, precommits);
      var state := queryingRounds[round];
      queryingRounds := queryingRounds[round := state.AddResponse(voter, precommits)];
      if round == roundForBlockNotIncluded + 1 {
        var discarded := CrossCheckPrecommitReplyAgainstCommit(precommits, commitForBlockNotIncluded);
        next := None;
      } else {
        var nextRoundToInvestigate := round - 1;
        if nextRoundToInvestigate !in queryingRounds {
          var votersInPrecommits := ReplyVoters(precommits);
          var query := StartQueryRound(nextRoundToInvestigate, votersInPrecommits);
          next := Some(query);
        } else {
          next := None;
        }
      }
    }
  }

  /** The reply used by the run below names Alice, Bob and Alice again. */
  lemma TestReplyVoters()
    ensures ReplyVoters([Votes.Precommit(5, "Alice"), Votes.Precommit(5, "Bob"), Votes.Precommit(5, "Alice")]) == ["Alice", "Bob"]
  {
    var reply := [Votes.Precommit(5, "Alice"), Votes.Precommit(5, "Bob"), Votes.Precommit(5, "Alice")];
    var names := ["Alice", "Bob", "Alice"];
    assert seq(|reply|, i requires 0 <= i < |reply| => reply[i].id) == names;
    var ids := ReplyVoters(reply);
    forall v
      ensures v in ids <==> v in names
    {
      if v in names {
        var i :| 0 <= i < 3 && names[i] == v;
        assert reply[i] in reply && reply[i].id == v;
      }
    }
    ReplyVotersOrderDecides(ids);
  }

  /** The contract of `ReplyVoters` alone fixes its result on that reply: the
      only list of Alice and Bob, each once, in first-occurrence order. */
  lemma ReplyVotersOrderDecides(ids: seq<VoterId>)
    requires NoDuplicates(ids)
    requires forall v :: v in ids <==> v in ["Alice", "Bob", "Alice"]
    requires InFirstOccurrenceOrder(ids, ["Alice", "Bob", "Alice"])
    ensures ids == ["Alice", "Bob"]
  {
    var s := ["Alice", "Bob", "Alice"];
    assert "Alice" in ids && "Bob" in ids;
    var a :| 0 <= a < |ids| && ids[a] == "Alice";
    var b :| 0 <= b < |ids| && ids[b] == "Bob";
    assert !FirstSeenBefore(s, "Bob", "Alice") by {
      forall k | 0 <= k < |s| && s[k] == "Bob"
        ensures "Alice" in s[..k + 1]
      {
        assert s[..k + 1][0] == "Alice";
      }
    }
    if b < a {
      assert false;
    }
    forall i | 0 <= i < |ids|
      ensures ids[i] in {"Alice", "Bob"}
    {
      assert ids[i] in s;
    }
    NoDuplicatesBounded(ids, {"Alice", "Bob"});
  }

  /** A run of the engine: the commit for block 1 was finalized in round 1 and
      round 3 is questioned first. Alice's reply opens round 2 with the two
      distinct voters it names; Bob's reply about round 3 opens nothing more,
      and a reply about round 2 ends the questioning. */
  method TestQueryBackwards() returns (q1: Option<Query>, q2: Option<Query>, q3: Option<Query>)
    ensures q1 == Some(Query(2, ["Alice", "Bob"], 1))
    ensures q2 == None && q3 == None
  {
    var engine := new AccountableSafety.Start(1, 1, Commit(1, [Votes.Precommit(1, "Alice"), Votes.Precommit(1, "Bob")]));
    var first := engine.StartQueryRound(3, ["Alice", "Bob", "Carol"]);
    var reply := [Votes.Precommit(5, "Alice"), Votes.Precommit(5, "Bob"), Votes.Precommit(5, "Alice")];
    var chain := new Chain();
    TestReplyVoters();
    q1 := engine.AddResponse(3, "Alice", reply, chain);
    q2 := engine.AddResponse(3, "Bob", reply, chain);
    q3 := engine.AddResponse(2, "Alice", [Votes.Precommit(5, "Alice")], chain);
  }
}
