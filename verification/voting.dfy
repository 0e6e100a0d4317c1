/** Voting rounds as each participant recorded them, and the checks run on the
    replies of the accountable-safety protocol (voting.rs). */
module Voting {
  import opened Wrappers
  import opened Seqs
  import opened Blocks
  import opened Votes
  import opened Ledger
  import opened Queries

  /** The prevotes named by (target, voter) pairs, in order. */
  function PrevotesOf(votes: seq<(BlockNumber, VoterName)>): (r: seq<Prevote>)
    ensures |r| == |votes|
    ensures forall i | 0 <= i < |votes| :: r[i].targetNumber == votes[i].0 && r[i].id == votes[i].1
  {
    seq(|votes|, i requires 0 <= i < |votes| => Votes.Prevote(votes[i].0, votes[i].1))
  }

  /** The precommits named by (target, voter) pairs, in order. */
  function PrecommitsOf(votes: seq<(BlockNumber, VoterName)>): (r: seq<Precommit>)
    ensures |r| == |votes|
    ensures forall i | 0 <= i < |votes| :: r[i].targetNumber == votes[i].0 && r[i].id == votes[i].1
  {
    seq(|votes|, i requires 0 <= i < |votes| => Votes.Precommit(votes[i].0, votes[i].1))
  }

  /** One alternative history of a round: the votes a participant recorded for it.
      An equivocating voter may present several alternatives of the same round,
      told apart by `tag`. */
  class VotingRound {
    var roundNumber: RoundNumber
    var voterSet: VoterSet
    var prevotes: seq<Prevote>
    var precommits: seq<Precommit>
    var finalized: Option<BlockNumber>
    var tag: nat

    /** Every recorded vote is by a member of the round's voter set. */
    ghost predicate Valid()
      reads this
    {
      && (forall i | 0 <= i < |prevotes| :: voterSet.IsMember(prevotes[i].id))
      && (forall i | 0 <= i < |precommits| :: voterSet.IsMember(precommits[i].id))
    }

    /** A round with no votes yet and tag 0. */
    constructor New(roundNumber: RoundNumber, voterSet: VoterSet)
      ensures Valid()
      ensures this.roundNumber == roundNumber && this.voterSet == voterSet
      ensures prevotes == [] && precommits == [] && finalized == None && tag == 0
    {
      this.roundNumber := roundNumber;
      this.voterSet := voterSet;
      prevotes := [];
      precommits := [];
      finalized := None;
      tag := 0;
    }

    /** A round with no votes yet and the given tag. */
    constructor NewWithTag(roundNumber: RoundNumber, voterSet: VoterSet, tag: nat)
      ensures Valid()
      ensures this.roundNumber == roundNumber && this.voterSet == voterSet
      ensures prevotes == [] && precommits == [] && finalized == None && this.tag == tag
    {
      this.roundNumber := roundNumber;
      this.voterSet := voterSet;
      prevotes := [];
      precommits := [];
      finalized := None;
      this.tag := tag;
    }

    /** Records prevotes after the existing ones; the source asserts that every
        voter is a member. */
    method Prevote(votes: seq<(BlockNumber, VoterName)>)
      requires Valid()
      requires forall i | 0 <= i < |votes| :: voterSet.IsMember(votes[i].1)
      modifies this`prevotes
      ensures Valid()
      ensures prevotes == old(prevotes) + PrevotesOf(votes)
    {
      prevotes := prevotes + PrevotesOf(votes);
    }

    /** Records precommits after the existing ones; the source asserts that every
        voter is a member. */
    method Precommit(votes: seq<(BlockNumber, VoterName)>)
      requires Valid()
      requires forall i | 0 <= i < |votes| :: voterSet.IsMember(votes[i].1)
      modifies this`precommits
      ensures Valid()
      ensures precommits == old(precommits) + PrecommitsOf(votes)
    {
      precommits := precommits + PrecommitsOf(votes);
    }
  }

  /** `after` keeps every round of `before` and every alternative recorded for
      it, in the same order, possibly followed by more. */
  ghost predicate KeepsAlternatives(before: map<RoundNumber, seq<VotingRound>>, after: map<RoundNumber, seq<VotingRound>>)
  {
    forall r | r in before :: r in after && before[r] <= after[r]
  }

  /** All the alternative histories a participant holds, per round number. */
  class VotingRounds {
    var rounds: map<RoundNumber, seq<VotingRound>>

    constructor ()
      ensures rounds == map[]
    {
      rounds := map[];
    }

    function Get(roundNumber: RoundNumber): (r: Option<seq<VotingRound>>)
      reads this
      ensures r.Some? <==> roundNumber in rounds
      ensures r.Some? ==> r.value == rounds[roundNumber]
    {
      if roundNumber in rounds then Some(rounds[roundNumber]) else None
    }

    /** Appends an alternative to the list of its round, opening the list if needed. */
    method Add(votingRound: VotingRound)
      modifies this`rounds
      ensures votingRound.roundNumber in rounds
      ensures rounds[votingRound.roundNumber] ==
        (if votingRound.roundNumber in old(rounds) then old(rounds)[votingRound.roundNumber] else []) + [votingRound]
      ensures forall r | r != votingRound.roundNumber :: (r in rounds <==> r in old(rounds)) && (r in rounds ==> rounds[r] == old(rounds)[r])
      ensures KeepsAlternatives(old(rounds), rounds)
    {
      var n := votingRound.roundNumber;
      if n in rounds {
        rounds := rounds[n := rounds[n] + [votingRound]];
      } else {
        rounds := rounds[n := [votingRound]];
      }
    }

    /** Takes over every round of `other`, replacing this participant's whole
        list for that round; the other rounds stay as they were. */
    method Extend(other: VotingRounds)
      modifies this`rounds
      ensures rounds.Keys == old(rounds).Keys + old(other.rounds).Keys
      ensures forall r | r in old(other.rounds) :: rounds[r] == old(other.rounds)[r]
      ensures forall r | r in old(rounds) && r !in old(other.rounds) :: rounds[r] == old(rounds)[r]
    {
      rounds := rounds + other.rounds;
    }
  }

  // ---------------------------------------------------------------------
  // Reply validity

  /** The distinct voters of a list of voter ids. */
  function Members(voters: seq<VoterId>): set<VoterId>
  {
    set v | v in voters
  }

  /** The positions of a reply's targets that include `block`. */
  ghost function SupportingIndices(chain: Chain, targets: seq<BlockNumber>, block: BlockNumber): set<nat>
    reads chain
    requires chain.Valid()
    requires forall t | t in targets :: t == block || t in chain.blocks
  {
    set i: nat | i < |targets| && chain.Includes(targets[i], block)
  }

  /** Voters of the round that sent no vote in the reply. */
  function AbsentVoters(voters: seq<VoterId>, ids: seq<VoterId>): set<VoterId>
  {
    Members(voters) - Members(ids)
  }

  /** The supermajority test: even counting every absent voter as a supporter,
      `block` cannot reach more than two thirds. */
  predicate SupermajorityImpossible(supporting: nat, absent: nat, numVoters: nat)
  {
    3 * (supporting + absent) <= 2 * numVoters
  }

  /** How many targets include `block`, counted one by one. */
  function CountIncluding(chain: Chain, targets: seq<BlockNumber>, block: BlockNumber): nat
    reads chain
    requires chain.Valid()
    requires forall t | t in targets :: t == block || t in chain.blocks
  {
    if targets == [] then 0
    else
      var last := targets[|targets| - 1];
      CountIncluding(chain, targets[..|targets| - 1], block) + (if chain.Includes(last, block) then 1 else 0)
  }

  /** The count of supporting targets is the number of supporting positions. */
  lemma {:induction false} CountIncludingIsSupport(chain: Chain, targets: seq<BlockNumber>, block: BlockNumber)
    requires chain.Valid()
    requires forall t | t in targets :: t == block || t in chain.blocks
    ensures CountIncluding(chain, targets, block) == |SupportingIndices(chain, targets, block)|
  {
    if targets != [] {
      var n := |targets| - 1;
      var front := targets[..n];
      assert forall t | t in front :: t in targets;
      CountIncludingIsSupport(chain, front, block);
      var s := SupportingIndices(chain, targets, block);
      var s0 := SupportingIndices(chain, front, block);
      assert forall i: nat | i < n :: front[i] == targets[i];
      if chain.Includes(targets[n], block) {
        assert s == s0 + {n};
      } else {
        assert s == s0;
      }
    }
  }

  /** The inputs the reply check handles: a well-formed ledger, no voter twice
      in the reply, and every target either `block` or a known block. */
  ghost predicate Checkable(response: QueryResponse, block: BlockNumber, chain: Chain)
    reads chain
  {
    && chain.Valid()
    && NoDuplicates(response.Ids())
    && forall t | t in response.TargetNumbers() :: t == block || t in chain.blocks
  }

  /** Measured against the round's set of voters, the reply shows that `block`
      cannot have had a supermajority. */
  ghost predicate ShowsNoSupermajority(response: QueryResponse, block: BlockNumber, voters: set<VoterId>, chain: Chain)
    reads chain
    requires Checkable(response, block, chain)
  {
    SupermajorityImpossible(|SupportingIndices(chain, response.TargetNumbers(), block)|,
                            |voters - Members(response.Ids())|, |voters|)
  }

  /** check_query_reply_is_valid: a reply is valid (no finding) exactly when the
      votes it shows make a supermajority for `block` impossible. A reply with a
      repeated voter is not handled by the source (`todo!`), and every target
      must be `block` or known to the ledger, whose walk fails otherwise. */
  function CheckQueryReplyIsValid(response: QueryResponse, block: BlockNumber, voters: seq<VoterId>, chain: Chain): (r: Option<EquivocationDetected>)
    reads chain
    requires chain.Valid()
    requires NoDuplicates(response.Ids())
    requires forall t | t in response.TargetNumbers() :: t == block || t in chain.blocks
    ensures r.None? <==>
      SupermajorityImpossible(|SupportingIndices(chain, response.TargetNumbers(), block)|,
                              |AbsentVoters(voters, response.Ids())|, |Members(voters)|)
    ensures r.None? <==> ShowsNoSupermajority(response, block, Members(voters), chain)
    ensures r.Some? ==> r.value == EquivocationDetected.InvalidResponse("placeholder")
  {
    CountIncludingIsSupport(chain, response.TargetNumbers(), block);
    var uniqueVoters := Members(response.Ids());
    var prevotesIncludesBlock := CountIncluding(chain, response.TargetNumbers(), block);
    var voterSet := Members(voters);
    var absentVoters := |voterSet - uniqueVoters|;
    if 3 * (prevotesIncludesBlock + absentVoters) <= 2 * |voterSet| then None
    else Some(EquivocationDetected.InvalidResponse("placeholder"))
  }

  /** More supporting or more absent votes can only make a valid reply invalid,
      never the reverse. */
  lemma ReplyCheckMonotone(r1: QueryResponse, r2: QueryResponse, block: BlockNumber, voters: seq<VoterId>, chain: Chain)
    requires chain.Valid()
    requires NoDuplicates(r1.Ids()) && NoDuplicates(r2.Ids())
    requires forall t | t in r1.TargetNumbers() :: t == block || t in chain.blocks
    requires forall t | t in r2.TargetNumbers() :: t == block || t in chain.blocks
    requires |SupportingIndices(chain, r1.TargetNumbers(), block)| <= |SupportingIndices(chain, r2.TargetNumbers(), block)|
    requires |AbsentVoters(voters, r1.Ids())| <= |AbsentVoters(voters, r2.Ids())|
    ensures CheckQueryReplyIsValid(r1, block, voters, chain).Some? ==> CheckQueryReplyIsValid(r2, block, voters, chain).Some?
  {
  }

  // ---------------------------------------------------------------------
  // Cross-checks

  /** The reply precommits by the same voter as `cp` for a different block. */
  function ConflictingPrecommits(reply: seq<Precommit>, cp: Precommit): (r: seq<Precommit>)
    ensures forall p :: p in r <==> p in reply && p.id == cp.id && p.targetNumber != cp.targetNumber
  {
    if reply == [] then []
    else
      var p := reply[|reply| - 1];
      ConflictingPrecommits(reply[..|reply| - 1], cp) +
        (if p.id == cp.id && p.targetNumber != cp.targetNumber then [p] else [])
  }

  /** One record per conflicting precommit: the voter and the blocks [reply target, commit target]. */
  function PrecommitRecords(votes: seq<Precommit>, cp: Precommit): (r: seq<Equivocation>)
    ensures |r| == |votes|
    ensures forall k | 0 <= k < |votes| :: r[k] == Equivocation(votes[k].id, [votes[k].targetNumber, cp.targetNumber])
  {
    seq(|votes|, k requires 0 <= k < |votes| => Equivocation(votes[k].id, [votes[k].targetNumber, cp.targetNumber]))
  }

  /** The equivocations the precommit cross-check collects over the commit's precommits, in order. */
  function PrecommitEquivocations(reply: seq<Precommit>, commitPrecommits: seq<Precommit>): seq<Equivocation>
  {
    if commitPrecommits == [] then []
    else
      var cp := commitPrecommits[|commitPrecommits| - 1];
      PrecommitEquivocations(reply, commitPrecommits[..|commitPrecommits| - 1]) +
        PrecommitRecords(ConflictingPrecommits(reply, cp), cp)
  }

  /** `p` in a reply and `cp` in a commit are by the same voter for different blocks. */
  predicate PrecommitConflict(cp: Precommit, p: Precommit)
  {
    p.id == cp.id && p.targetNumber != cp.targetNumber
  }

  /** Every record collected comes from a reply precommit conflicting with a
      commit precommit, whose two blocks it lists. */
  lemma {:induction false} PrecommitEquivocationSound(reply: seq<Precommit>, commitPrecommits: seq<Precommit>, e: Equivocation)
      returns (cp: Precommit, p: Precommit)
    requires e in PrecommitEquivocations(reply, commitPrecommits)
    ensures cp in commitPrecommits && p in reply && PrecommitConflict(cp, p)
    ensures e == Equivocation(p.id, [p.targetNumber, cp.targetNumber])
  {
    var n := |commitPrecommits| - 1;
    var front := commitPrecommits[..n];
    var last := commitPrecommits[n];
    var votes := ConflictingPrecommits(reply, last);
    var tail := PrecommitRecords(votes, last);
    if e in tail {
      var k :| 0 <= k < |tail| && tail[k] == e;
      cp, p := last, votes[k];
      assert p in votes;
    } else {
      cp, p := PrecommitEquivocationSound(reply, front, e);
      assert cp in front;
    }
  }

  /** Every conflicting pair of a commit precommit and a reply precommit is recorded. */
  lemma {:induction false} PrecommitEquivocationComplete(reply: seq<Precommit>, commitPrecommits: seq<Precommit>, cp: Precommit, p: Precommit)
    requires cp in commitPrecommits && p in reply && PrecommitConflict(cp, p)
    ensures Equivocation(p.id, [p.targetNumber, cp.targetNumber]) in PrecommitEquivocations(reply, commitPrecommits)
  {
    var n := |commitPrecommits| - 1;
    var front := commitPrecommits[..n];
    var last := commitPrecommits[n];
    assert commitPrecommits == front + [last];
    if cp == last {
      var votes := ConflictingPrecommits(reply, last);
      assert p in votes;
      var k :| 0 <= k < |votes| && votes[k] == p;
      assert PrecommitRecords(votes, last)[k] == Equivocation(p.id, [p.targetNumber, cp.targetNumber]);
    } else {
      assert cp in front;
      PrecommitEquivocationComplete(reply, front, cp, p);
    }
  }

  /** cross_check_precommit_reply_against_commit: collects, commit precommit by
      commit precommit, every reply precommit by the same voter for another block. */
  method CrossCheckPrecommitReplyAgainstCommit(precommits: seq<Precommit>, commit: Commit) returns (r: Option<EquivocationDetected>)
    ensures r.None? <==> PrecommitEquivocations(precommits, commit.precommits) == []
    ensures r.Some? ==> r.value == EquivocationDetected.Precommit(PrecommitEquivocations(precommits, commit.precommits))
  {
    var equivocations: seq<Equivocation> := [];
    for i := 0 to |commit.precommits|
      invariant equivocations == PrecommitEquivocations(precommits, commit.precommits[..i])
    {
      var commitPrecommit := commit.precommits[i];
      var equivocatedVotes := ConflictingPrecommits(precommits, commitPrecommit);
      if equivocatedVotes != [] {
        equivocations := equivocations + PrecommitRecords(equivocatedVotes, commitPrecommit);
      }
      assert commit.precommits[..i + 1][..i] == commit.precommits[..i];
    }
    assert commit.precommits[..|commit.precommits|] == commit.precommits;
    if equivocations == [] {
      r := None;
    } else {
      r := Some(EquivocationDetected.Precommit(equivocations));
    }
  }

  /** The reply prevotes by the same voter as `seen`. */
  function SameVoterPrevotes(reply: seq<Prevote>, seen: Prevote): (r: seq<Prevote>)
    ensures forall p :: p in r <==> p in reply && p.id == seen.id
  {
    if reply == [] then []
    else
      var p := reply[|reply| - 1];
      SameVoterPrevotes(reply[..|reply| - 1], seen) + (if p.id == seen.id then [p] else [])
  }

  /** One record per matching prevote: the voter and the one block [reply target]. */
  function PrevoteRecords(votes: seq<Prevote>): (r: seq<Equivocation>)
    ensures |r| == |votes|
    ensures forall k | 0 <= k < |votes| :: r[k] == Equivocation(votes[k].id, [votes[k].targetNumber])
  {
    seq(|votes|, k requires 0 <= k < |votes| => Equivocation(votes[k].id, [votes[k].targetNumber]))
  }

  /** The equivocations the prevote cross-check collects over the prevotes seen, in order. */
  function PrevoteEquivocations(reply: seq<Prevote>, prevotesSeen: seq<Prevote>): seq<Equivocation>
  {
    if prevotesSeen == [] then []
    else
      var seen := prevotesSeen[|prevotesSeen| - 1];
      PrevoteEquivocations(reply, prevotesSeen[..|prevotesSeen| - 1]) + PrevoteRecords(SameVoterPrevotes(reply, seen))
  }

  /** Every record the prevote cross-check collects names a reply prevote by a
      voter whose prevote was also seen, with the reply's target as its one block. */
  lemma {:induction false} PrevoteEquivocationSound(reply: seq<Prevote>, prevotesSeen: seq<Prevote>, e: Equivocation)
      returns (p: Prevote, q: Prevote)
    requires e in PrevoteEquivocations(reply, prevotesSeen)
    ensures p in reply && q in prevotesSeen && p.id == q.id
    ensures e == Equivocation(p.id, [p.targetNumber])
  {
    var n := |prevotesSeen| - 1;
    var front := prevotesSeen[..n];
    var seen := prevotesSeen[n];
    var votes := SameVoterPrevotes(reply, seen);
    var tail := PrevoteRecords(votes);
    if e in tail {
      var k :| 0 <= k < |tail| && tail[k] == e;
      p, q := votes[k], seen;
      assert p in votes;
    } else {
      p, q := PrevoteEquivocationSound(reply, front, e);
      assert q in front;
    }
  }

  /** Every reply prevote by a voter whose prevote was seen is recorded. */
  lemma {:induction false} PrevoteEquivocationComplete(reply: seq<Prevote>, prevotesSeen: seq<Prevote>, p: Prevote, q: Prevote)
    requires p in reply && q in prevotesSeen && p.id == q.id
    ensures Equivocation(p.id, [p.targetNumber]) in PrevoteEquivocations(reply, prevotesSeen)
  {
    var n := |prevotesSeen| - 1;
    var front := prevotesSeen[..n];
    var seen := prevotesSeen[n];
    assert prevotesSeen == front + [seen];
    if q == seen {
      var votes := SameVoterPrevotes(reply, seen);
      assert p in votes;
      var k :| 0 <= k < |votes| && votes[k] == p;
      assert PrevoteRecords(votes)[k] == Equivocation(p.id, [p.targetNumber]);
    } else {
      assert q in front;
      PrevoteEquivocationComplete(reply, front, p, q);
    }
  }

  /** The prevote cross-check finds something exactly when some voter occurs
      in both the reply and the prevotes seen. */
  lemma PrevoteEquivocationsFound(reply: seq<Prevote>, prevotesSeen: seq<Prevote>)
    ensures PrevoteEquivocations(reply, prevotesSeen) != [] <==>
      exists p, q :: p in reply && q in prevotesSeen && p.id == q.id
  {
    var found := PrevoteEquivocations(reply, prevotesSeen);
    if found != [] {
      var p, q := PrevoteEquivocationSound(reply, prevotesSeen, found[0]);
    }
    if exists p, q :: p in reply && q in prevotesSeen && p.id == q.id {
      var p, q :| p in reply && q in prevotesSeen && p.id == q.id;
      PrevoteEquivocationComplete(reply, prevotesSeen, p, q);
    }
  }

  /** cross_check_prevote_reply_against_prevotes_seen: for every prevote seen,
      records each reply prevote by the same voter. */
  method CrossCheckPrevoteReplyAgainstPrevotesSeen(prevoteReply: seq<Prevote>, prevotesSeen: seq<Prevote>) returns (r: Option<EquivocationDetected>)
    ensures r.None? <==> PrevoteEquivocations(prevoteReply, prevotesSeen) == []
    ensures r.Some? ==> r.value == EquivocationDetected.Prevote(PrevoteEquivocations(prevoteReply, prevotesSeen))
  {
    var equivocations: seq<Equivocation> := [];
    for i := 0 to |prevotesSeen|
      invariant equivocations == PrevoteEquivocations(prevoteReply, prevotesSeen[..i])
    {
      var prevote := prevotesSeen[i];
      var equivocatedVotes := SameVoterPrevotes(prevoteReply, prevote);
      if equivocatedVotes != [] {
        equivocations := equivocations + PrevoteRecords(equivocatedVotes);
      }
      assert prevotesSeen[..i + 1][..i] == prevotesSeen[..i];
    }
    assert prevotesSeen[..|prevotesSeen|] == prevotesSeen;
    if equivocations == [] {
      r := None;
    } else {
      r := Some(EquivocationDetected.Prevote(equivocations));
    }
  }

  /** Test cross_check_precommits1: a reply matching the commit shows nothing. */
  method TestCrossCheckPrecommits1() returns (r: Option<EquivocationDetected>)
    ensures r == None
  {
    var precommits := [Votes.Precommit(1, "Alice"), Votes.Precommit(1, "Bob")];
    var commit := Commit(1, [Votes.Precommit(1, "Alice"), Votes.Precommit(1, "Bob")]);
    r := CrossCheckPrecommitReplyAgainstCommit(precommits, commit);
    assert ConflictingPrecommits(precommits, commit.precommits[0]) == [];
    assert ConflictingPrecommits(precommits, commit.precommits[1]) == [];
    assert commit.precommits[..1] == [commit.precommits[0]];
  }

  /** The records of test cross_check_precommits2: Alice precommitted 1 in the
      reply and 2 in the commit. */
  lemma TestPrecommitRecords()
    ensures PrecommitEquivocations([Votes.Precommit(1, "Alice"), Votes.Precommit(1, "Bob")],
                                   [Votes.Precommit(2, "Alice"), Votes.Precommit(1, "Bob")])
            == [Equivocation("Alice", [1, 2])]
  {
    var precommits := [Votes.Precommit(1, "Alice"), Votes.Precommit(1, "Bob")];
    var commitPrecommits := [Votes.Precommit(2, "Alice"), Votes.Precommit(1, "Bob")];
    assert precommits[..1] == [precommits[0]];
    assert ConflictingPrecommits(precommits[..1], commitPrecommits[0]) == [precommits[0]];
    assert ConflictingPrecommits(precommits, commitPrecommits[0]) == [precommits[0]];
    assert ConflictingPrecommits(precommits, commitPrecommits[1]) == [];
    assert commitPrecommits[..1] == [commitPrecommits[0]];
    assert PrecommitEquivocations(precommits, commitPrecommits[..1]) == [Equivocation("Alice", [1, 2])];
  }

  /** Test cross_check_precommits2. */
  method TestCrossCheckPrecommits2() returns (r: Option<EquivocationDetected>)
    ensures r == Some(EquivocationDetected.Precommit([Equivocation("Alice", [1, 2])]))
  {
    var precommits := [Votes.Precommit(1, "Alice"), Votes.Precommit(1, "Bob")];
    var commit := Commit(1, [Votes.Precommit(2, "Alice"), Votes.Precommit(1, "Bob")]);
    TestPrecommitRecords();
    r := CrossCheckPrecommitReplyAgainstCommit(precommits, commit);
  }
}
