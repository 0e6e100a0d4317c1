/** Value types of the vote model: voter sets, the two kinds of vote and the
    finality certificate (commit). */
module Votes {
  import opened Seqs
  import opened Blocks

  type VoterName = string
  type VoterId = string
  type RoundNumber = nat

  /** The fixed set of participants of a run. */
  datatype VoterSet = VoterSet(voters: set<VoterName>)
  {
    /** A member is one whose addition leaves the set as it is; adding anyone
        else grows it by one. */
    predicate IsMember(voter: VoterName)
      ensures IsMember(voter) <==> |voters + {voter}| == |voters|
      ensures !IsMember(voter) ==> |voters + {voter}| == |voters| + 1
    {
      voter in voters
    }

    /** The identities of all members, each once, in an order the source leaves
        to its hash set. */
    method VoterIds() returns (ids: seq<VoterId>)
      ensures NoDuplicates(ids)
      ensures forall v :: v in ids <==> v in voters
      ensures |ids| == |voters|
    {
      ids := [];
      var rest := voters;
      while rest != {}
        invariant rest <= voters
        invariant NoDuplicates(ids)
        invariant forall v :: v in ids <==> v in voters && v !in rest
        invariant |ids| + |rest| == |voters|
        decreases |rest|
      {
        var v :| v in rest;
        ids := ids + [v];
        rest := rest - {v};
      }
    }
  }

  function NewVoterSet(names: seq<VoterName>): (vs: VoterSet)
    ensures forall v :: vs.IsMember(v) <==> v in names
  {
    VoterSet(set v | v in names)
  }

  datatype Prevote = Prevote(targetNumber: BlockNumber, id: VoterName)

  datatype Precommit = Precommit(targetNumber: BlockNumber, id: VoterName)

  /** A finality certificate: the finalized block and the precommits that finalized it.
      It does not re-check that the precommits form a supermajority. */
  datatype Commit = Commit(targetNumber: BlockNumber, precommits: seq<Precommit>)
  {
    /** The voters of the precommits, in order and with repetitions. */
    function Ids(): (ids: seq<VoterId>)
      ensures |ids| == |precommits|
      ensures forall v :: v in ids <==> exists p :: p in precommits && p.id == v
    {
      var ids := seq(|precommits|, i requires 0 <= i < |precommits| => precommits[i].id);
      assert forall v :: v in ids <==> exists p :: p in precommits && p.id == v by {
        forall v | v in ids
          ensures exists p :: p in precommits && p.id == v
        {
          var i :| 0 <= i < |ids| && ids[i] == v;
          assert precommits[i] in precommits;
        }
        forall v | exists p :: p in precommits && p.id == v
          ensures v in ids
        {
          var p :| p in precommits && p.id == v;
          var i :| 0 <= i < |precommits| && precommits[i] == p;
          assert ids[i] == v;
        }
      }
      ids
    }
  }
}
