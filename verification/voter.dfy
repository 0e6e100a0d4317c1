/** A participant (voter.rs): its ledger, the rounds it recorded, a queue of
    actions due at given ticks, the accountable-safety instances it runs, and
    its handlers for requests and responses. */
module Participant {
  import opened Wrappers
  import opened Seqs
  import opened Blocks
  import opened Votes
  import opened Ledger
  import opened Queries
  import opened Voting
  import opened Protocol
  import opened Messages

  type Tick = nat

  /** How long a participant waits before acting on something it scheduled. */
  const RETRY_DELAY: nat := 10

  datatype Action =
    | BroadcastCommits
    | SendBlock(to: VoterId, blockNumber: BlockNumber)
    | RequeueRequest(from: VoterId, request: Request)
    | AskVotersAboutEstimate(query: Query)
    | AskVotersWhichPrevotesSeen(prevoteQuery: PrevoteQuery)

  /** The misbehaviour a voter may be configured with: which of its recorded
      votes it uses to explain an estimate. */
  datatype Behaviour = ReturnPrecommits | ReturnPrevotes

  /** The action that carries out the engine's next query. */
  function NextAction(next: NextQuery): (a: Action)
    ensures a.AskVotersAboutEstimate? <==> next.AskAboutRound?
    ensures a.AskVotersAboutEstimate? || a.AskVotersWhichPrevotesSeen?
    ensures a.AskVotersAboutEstimate? ==> a.query == next.query
    ensures a.AskVotersWhichPrevotesSeen? ==> a.prevoteQuery == next.prevoteQuery
  {
    match next
    case AskAboutRound(query) => AskVotersAboutEstimate(query)
    case PrevotesForRound(query) => AskVotersWhichPrevotesSeen(query)
  }

  // ---------------------------------------------------------------------
  // The action queue

  /** The queued entries due at `tick`, in queue order. */
  function Due<A(==, !new)>(queue: seq<(Tick, A)>, tick: Tick): (due: seq<(Tick, A)>)
    ensures forall x :: x in due <==> x in queue && x.0 <= tick
  {
    if queue == [] then []
    else
      var last := queue[|queue| - 1];
      Due(queue[..|queue| - 1], tick) + (if last.0 <= tick then [last] else [])
  }

  /** The queued entries not yet due at `tick`, in queue order. */
  function Later<A(==, !new)>(queue: seq<(Tick, A)>, tick: Tick): (later: seq<(Tick, A)>)
    ensures forall x :: x in later <==> x in queue && x.0 > tick
  {
    if queue == [] then []
    else
      var last := queue[|queue| - 1];
      Later(queue[..|queue| - 1], tick) + (if last.0 > tick then [last] else [])
  }

  /** Splitting the queue at a tick loses and duplicates nothing. */
  lemma {:induction false} DueLaterPartition<A(!new)>(queue: seq<(Tick, A)>, tick: Tick)
    ensures multiset(Due(queue, tick)) + multiset(Later(queue, tick)) == multiset(queue)
  {
    if queue != [] {
      var front := queue[..|queue| - 1];
      var last := queue[|queue| - 1];
      DueLaterPartition(front, tick);
      assert queue == front + [last];
      DueLaterSnoc(front, last, tick);
    }
  }

  /** Appending an entry to the queue appends it to exactly one of the two parts. */
  lemma DueLaterSnoc<A(!new)>(front: seq<(Tick, A)>, last: (Tick, A), tick: Tick)
    ensures multiset(Due(front + [last], tick)) + multiset(Later(front + [last], tick)) ==
            multiset(Due(front, tick)) + multiset(Later(front, tick)) + multiset{last}
  {
    var queue := front + [last];
    assert queue[..|queue| - 1] == front && queue[|queue| - 1] == last;
    if last.0 <= tick {
      assert Due(queue, tick) == Due(front, tick) + [last];
      assert Later(queue, tick) == Later(front, tick);
    } else {
      assert Due(queue, tick) == Due(front, tick);
      assert Later(queue, tick) == Later(front, tick) + [last];
    }
  }

  /** One message per receiver, in receiver order, each carrying `request`. */
  function AddressedTo(sender: VoterId, receivers: seq<VoterId>, request: Request): (ms: seq<Message>)
    ensures |ms| == |receivers|
    ensures forall i | 0 <= i < |receivers| :: ms[i] == Message(sender, receivers[i], Payload.Request(request))
  {
    seq(|receivers|, i requires 0 <= i < |receivers| => Message(sender, receivers[i], Payload.Request(request)))
  }

  // ---------------------------------------------------------------------
  // Delivery of blocks

  /** The known blocks after taking in `block`: a known number keeps its block. */
  function TakeIn(known: map<BlockNumber, Block>, block: Block): map<BlockNumber, Block>
  {
    if block.number in known then known else known[block.number := block]
  }

  /** The known blocks after taking in `blocks` in order. */
  function Absorb(known: map<BlockNumber, Block>, blocks: seq<Block>): map<BlockNumber, Block>
    decreases |blocks|
  {
    if blocks == [] then known else Absorb(TakeIn(known, blocks[0]), blocks[1..])
  }

  /** The participant can take in `blocks` in order: each already known block
      is identical to the one received, and each new block's parent is known
      by the time it arrives. */
  ghost predicate Deliverable(known: map<BlockNumber, Block>, blocks: seq<Block>)
    decreases |blocks|
  {
    blocks == [] ||
    (var b := blocks[0];
     (if b.number in known then known[b.number] == b else b.parent in known) &&
     Deliverable(TakeIn(known, b), blocks[1..]))
  }

  /** Taking in blocks never changes or drops a known block. */
  lemma {:induction false} AbsorbKeeps(known: map<BlockNumber, Block>, blocks: seq<Block>)
    ensures forall n | n in known :: n in Absorb(known, blocks) && Absorb(known, blocks)[n] == known[n]
    decreases |blocks|
  {
    if blocks != [] {
      AbsorbKeeps(TakeIn(known, blocks[0]), blocks[1..]);
    }
  }

  /** After a delivery every delivered block is known, as delivered, and the
      known numbers are exactly the old ones and the delivered ones. */
  lemma {:induction false} AbsorbFiles(known: map<BlockNumber, Block>, blocks: seq<Block>)
    requires Deliverable(known, blocks)
    ensures forall b | b in blocks :: b.number in Absorb(known, blocks) && Absorb(known, blocks)[b.number] == b
    ensures Absorb(known, blocks).Keys == known.Keys + (set b | b in blocks :: b.number)
    decreases |blocks|
  {
    if blocks != [] {
      var b := blocks[0];
      var next := TakeIn(known, b);
      AbsorbFiles(next, blocks[1..]);
      AbsorbKeeps(next, blocks[1..]);
      assert blocks == [b] + blocks[1..];
      assert (set c | c in blocks :: c.number) == {b.number} + (set c | c in blocks[1..] :: c.number);
    }
  }

  /** Blocks that are all known as they are change nothing and can be delivered. */
  lemma {:induction false} AbsorbKnown(known: map<BlockNumber, Block>, blocks: seq<Block>)
    requires forall b | b in blocks :: b.number in known && known[b.number] == b
    ensures Absorb(known, blocks) == known
    ensures Deliverable(known, blocks)
    decreases |blocks|
  {
    if blocks != [] {
      assert blocks[0] in blocks;
      assert forall b | b in blocks[1..] :: b in blocks;
      AbsorbKnown(known, blocks[1..]);
    }
  }

  /** Re-delivering the same blocks is a no-op. */
  lemma RedeliveryIsNoOp(known: map<BlockNumber, Block>, blocks: seq<Block>)
    requires Deliverable(known, blocks)
    ensures Deliverable(Absorb(known, blocks), blocks)
    ensures Absorb(Absorb(known, blocks), blocks) == Absorb(known, blocks)
  {
    AbsorbFiles(known, blocks);
    AbsorbKnown(Absorb(known, blocks), blocks);
  }

  // ---------------------------------------------------------------------
  // Choosing the explanation of an estimate

  /** The candidate replies of a round: the precommits of each recorded
      alternative by default, their prevotes under `ReturnPrevotes`. */
  function Candidates(alternatives: seq<VotingRound>, behaviour: Option<Behaviour>): (cs: seq<QueryResponse>)
    reads alternatives
    ensures |cs| == |alternatives|
    ensures forall i | 0 <= i < |alternatives| ::
      cs[i] == (if behaviour == Some(ReturnPrevotes) then QueryResponse.Prevotes(alternatives[i].prevotes)
                else QueryResponse.Precommits(alternatives[i].precommits))
  {
    seq(|alternatives|, i reads alternatives requires 0 <= i < |alternatives| =>
      if behaviour == Some(ReturnPrevotes) then QueryResponse.Prevotes(alternatives[i].prevotes)
      else QueryResponse.Precommits(alternatives[i].precommits))
  }

  /** Every candidate can be put to the reply check. */
  ghost predicate AllCheckable(candidates: seq<QueryResponse>, block: BlockNumber, chain: Chain)
    reads chain
  {
    chain.Valid() && forall c | c in candidates :: Checkable(c, block, chain)
  }

  /** The positions of the candidates that pass the reply check. */
  ghost function PassingPositions(candidates: seq<QueryResponse>, block: BlockNumber, voters: set<VoterId>, chain: Chain): set<nat>
    reads chain
    requires AllCheckable(candidates, block, chain)
  {
    set i: nat | i < |candidates| && ShowsNoSupermajority(candidates[i], block, voters, chain)
  }

  /** The candidates that pass the reply check, in order. */
  function Passing(candidates: seq<QueryResponse>, block: BlockNumber, voters: seq<VoterId>, chain: Chain): (ps: seq<QueryResponse>)
    reads chain
    requires AllCheckable(candidates, block, chain)
    ensures forall c :: c in ps <==> c in candidates && ShowsNoSupermajority(c, block, Members(voters), chain)
  {
    if candidates == [] then []
    else
      var front := candidates[..|candidates| - 1];
      var last := candidates[|candidates| - 1];
      assert last in candidates && forall c | c in front :: c in candidates;
      Passing(front, block, voters, chain) +
        (if CheckQueryReplyIsValid(last, block, voters, chain).None? then [last] else [])
  }

  /** A set of one element holds nothing else. */
  lemma OnlyMember(s: set<nat>, i: nat)
    requires |s| == 1 && i in s
    ensures s == {i}
  {
    var rest := s - {i};
    assert s == rest + {i};
    assert |rest| == 0;
  }

  /** When a filter keeps exactly the candidates at one single position, the
      first element it keeps is the candidate there. */
  lemma SingleKept<T>(candidates: seq<T>, kept: seq<T>, positions: set<nat>)
    requires |positions| == 1
    requires forall i: nat :: i in positions <==> i < |candidates| && candidates[i] in kept
    requires forall c | c in kept :: c in candidates
    ensures kept != []
    ensures forall i | i in positions :: kept[0] == candidates[i]
  {
    var i :| i in positions;
    OnlyMember(positions, i);
    assert kept[0] in kept;
    var j :| 0 <= j < |candidates| && candidates[j] == kept[0];
    assert j in positions;
  }

  /** When exactly one candidate passes, it is the first (and only) candidate
      the filter keeps. */
  lemma SinglePassing(candidates: seq<QueryResponse>, block: BlockNumber, voters: seq<VoterId>, chain: Chain)
    requires AllCheckable(candidates, block, chain)
    requires |PassingPositions(candidates, block, Members(voters), chain)| == 1
    ensures Passing(candidates, block, voters, chain) != []
    ensures forall i | i in PassingPositions(candidates, block, Members(voters), chain) ::
      Passing(candidates, block, voters, chain)[0] == candidates[i]
  {
    var positions := PassingPositions(candidates, block, Members(voters), chain);
    var found := Passing(candidates, block, voters, chain);
    assert forall i: nat :: i in positions <==> i < |candidates| && candidates[i] in found by {
      forall i: nat | i < |candidates|
        ensures i in positions <==> candidates[i] in found
      {
        assert candidates[i] in candidates;
      }
    }
    SingleKept(candidates, found, positions);
  }

  /** select_valid_query_response: the one candidate that passes the reply
      check. The source asserts that exactly one does. */
  function SelectValidQueryResponse(candidates: seq<QueryResponse>, block: BlockNumber, voters: seq<VoterId>, chain: Chain): (r: QueryResponse)
    reads chain
    requires AllCheckable(candidates, block, chain)
    requires |PassingPositions(candidates, block, Members(voters), chain)| == 1
    ensures forall i | i in PassingPositions(candidates, block, Members(voters), chain) :: r == candidates[i]
    ensures r in candidates && CheckQueryReplyIsValid(r, block, voters, chain).None?
  {
    SinglePassing(candidates, block, voters, chain);
    var valid := Passing(candidates, block, voters, chain);
    assert valid[0] in valid;
    valid[0]
  }

  // ---------------------------------------------------------------------
  // The participant

  class Voter {
    var id: VoterId
    var chain: Chain
    var voterSet: VoterSet
    var votingRounds: VotingRounds
    var actions: seq<(Tick, Action)>
    var accountableSafety: seq<AccountableSafety>
    var behaviour: Option<Behaviour>

    /** The ledger is well formed and so is every accountable-safety instance. */
    ghost predicate Valid()
      reads this, chain, accountableSafety
    {
      && chain.Valid()
      && forall i | 0 <= i < |accountableSafety| :: accountableSafety[i].Valid()
    }

    constructor New(id: VoterId, chain: Chain, voterSet: VoterSet, votingRounds: VotingRounds, behaviour: Option<Behaviour>)
      requires chain.Valid()
      ensures Valid()
      ensures this.id == id && this.chain == chain && this.voterSet == voterSet
      ensures this.votingRounds == votingRounds && this.behaviour == behaviour
      ensures actions == [] && accountableSafety == []
    {
      this.id := id;
      this.chain := chain;
      this.voterSet := voterSet;
      this.votingRounds := votingRounds;
      this.behaviour := behaviour;
      actions := [];
      accountableSafety := [];
    }

    /** Queues the given actions after the existing ones, in order. */
    method AddActions(newActions: seq<(Tick, Action)>)
      modifies this`actions
      ensures actions == old(actions) + newActions
    {
      for i := 0 to |newActions|
        invariant actions == old(actions) + newActions[..i]
      {
        actions := actions + [newActions[i]];
        assert newActions[..i + 1] == newActions[..i] + [newActions[i]];
      }
      assert newActions[..|newActions|] == newActions;
    }

    /** `m` is a commit announcement from this participant to another voter,
        carrying a known commit and the round it was finalized in. */
    ghost predicate IsCommitBroadcast(m: Message)
      reads this`id, this`voterSet, this`chain, chain
      requires chain.Valid()
    {
      && m.sender == id
      && m.receiver in voterSet.voters && m.receiver != id
      && m.content.Request? && m.content.request.HereIsCommit?
      && var target := m.content.request.commit.targetNumber;
         target in chain.commits && m.content.request.commit == chain.commits[target]
         && m.content.request.round == chain.finalizedRounds[target]
    }

    /** `ms` announces every known commit to every other voter, once each. */
    ghost predicate BroadcastsAllCommits(ms: seq<Message>)
      reads this`id, this`voterSet, this`chain, chain
      requires chain.Valid()
    {
      && NoDuplicates(ms)
      && (forall m :: m in ms <==> IsCommitBroadcast(m))
      && |ms| == |voterSet.voters - {id}| * |chain.commits.Keys|
    }

    /** The announcements of every known commit to `receiver`, once each. */
    method CommitsFor(receiver: VoterId) returns (ms: seq<Message>)
      requires chain.Valid() && receiver in voterSet.voters && receiver != id
      ensures NoDuplicates(ms)
      ensures forall m :: m in ms <==> IsCommitBroadcast(m) && m.receiver == receiver
      ensures |ms| == |chain.commits.Keys|
    {
      ms := [];
      var rest := chain.commits.Keys;
      while rest != {}
        invariant rest <= chain.commits.Keys
        invariant NoDuplicates(ms)
        invariant forall m :: m in ms <==>
          (IsCommitBroadcast(m) && m.receiver == receiver && m.content.request.commit.targetNumber !in rest)
        invariant |ms| + |rest| == |chain.commits.Keys|
        decreases |rest|
      {
        var target :| target in rest;
        var round := chain.finalizedRounds[target];
        var m := Message(id, receiver, Payload.Request(HereIsCommit(round, chain.commits[target])));
        ms := ms + [m];
        rest := rest - {target};
      }
    }

    /** create_broadcast_commit_messages: one HereIsCommit per pair of another
        voter and a known commit, in an order the source leaves to its hash maps. */
    method CreateBroadcastCommitMessages() returns (msgs: seq<Message>)
      requires chain.Valid()
      ensures BroadcastsAllCommits(msgs)
    {
      var receivers := voterSet.voters - {id};
      var perReceiver := |chain.commits.Keys|;
      msgs := [];
      var rest := receivers;
      while rest != {}
        invariant rest <= receivers
        invariant NoDuplicates(msgs)
        invariant forall m :: m in msgs <==> IsCommitBroadcast(m) && m.receiver !in rest
        invariant |msgs| == (|receivers| - |rest|) * perReceiver
        decreases |rest|
      {
        var receiver :| receiver in rest;
        var ms := CommitsFor(receiver);
        NoDuplicatesAppend(msgs, ms);
        msgs := msgs + ms;
        assert (|receivers| - |rest - {receiver}|) * perReceiver == (|receivers| - |rest|) * perReceiver + perReceiver;
        rest := rest - {receiver};
      }
    }

    /** Sends `request` to each receiver in turn. */
    method AskEach(receivers: seq<VoterId>, request: Request) returns (out: seq<Message>)
      ensures out == AddressedTo(id, receivers, request)
    {
      out := [];
      for i := 0 to |receivers|
        invariant out == AddressedTo(id, receivers[..i], request)
      {
        out := out + [Message(id, receivers[i], Payload.Request(request))];
      }
      assert receivers[..|receivers|] == receivers;
    }

    /** Whether a postponed request can be handled now: a commit only once
        its block is known. */
    function ShouldQueueUp(request: Request): (r: bool)
      reads this`chain, chain
      requires chain.Valid()
      ensures !r <==> request.HereIsCommit? && chain.GetBlock(request.commit.targetNumber).None?
    {
      match request
      case HereIsCommit(_, commit) => chain.KnowsAboutBlock(commit.targetNumber)
      case _ => true
    }

    /** What carrying out the queued `entry` produces: the messages sent and
        the entries queued again. */
    ghost predicate Emits(entry: (Tick, Action), out: seq<Message>, requeued: seq<(Tick, Action)>)
      reads this`id, this`voterSet, this`chain, chain
      requires chain.Valid()
    {
      match entry.1
      case BroadcastCommits => requeued == [] && BroadcastsAllCommits(out)
      case SendBlock(to, n) =>
        && requeued == []
        && out == (if chain.ChainOfBlocks(n) == [] then []
                   else [Message(id, to, Payload.Request(HereAreBlocks(chain.ChainOfBlocks(n))))])
      case RequeueRequest(from, request) =>
        if ShouldQueueUp(request) then out == [Message(from, id, Payload.Request(request))] && requeued == []
        else out == [] && requeued == [(entry.0 + RETRY_DELAY, entry.1)]
      case AskVotersAboutEstimate(q) =>
        requeued == [] && out == AddressedTo(id, q.receivers, WhyDidEstimateForRoundNotIncludeBlock(q.round, q.blockNotIncluded))
      case AskVotersWhichPrevotesSeen(q) =>
        requeued == [] && out == AddressedTo(id, q.receivers, WhichPrevotesSeenInRound(q.round))
    }

    /** Each of `entries`, in order, produced the matching element of `parts`
        and of `requeues`. */
    ghost predicate EmitsAll(entries: seq<(Tick, Action)>, parts: seq<seq<Message>>, requeues: seq<seq<(Tick, Action)>>)
      reads this`id, this`voterSet, this`chain, chain
      requires chain.Valid()
      decreases |entries|
    {
      && |parts| == |entries| && |requeues| == |entries|
      && (entries != [] ==>
            var n := |entries| - 1;
            EmitsAll(entries[..n], parts[..n], requeues[..n]) && Emits(entries[n], parts[n], requeues[n]))
    }

    /** Carries out one queued entry. */
    method Perform(entry: (Tick, Action)) returns (out: seq<Message>, requeued: seq<(Tick, Action)>)
      requires chain.Valid()
      ensures Emits(entry, out, requeued)
    {
      var (triggerTime, action) := entry;
      requeued := [];
      match action {
        case BroadcastCommits =>
          out := CreateBroadcastCommitMessages();
        case SendBlock(to, n) =>
          var blocks := chain.GetChainOfBlocks(n);
          if blocks != [] {
            out := [Message(id, to, Payload.Request(HereAreBlocks(blocks)))];
          } else {
            out := [];
          }
        case RequeueRequest(from, request) =>
          if ShouldQueueUp(request) {
            out := [Message(from, id, Payload.Request(request))];
          } else {
            out := [];
            requeued := [(triggerTime + RETRY_DELAY, action)];
          }
        case AskVotersAboutEstimate(q) =>
          out := AskEach(q.receivers, WhyDidEstimateForRoundNotIncludeBlock(q.round, q.blockNotIncluded));
        case AskVotersWhichPrevotesSeen(q) =>
          out := AskEach(q.receivers, WhichPrevotesSeenInRound(q.round));
      }
    }

    /** Carries out `due` in order, collecting the messages sent and the
        entries to queue again. */
    method PerformAll(due: seq<(Tick, Action)>)
        returns (messages: seq<Message>, requeued: seq<(Tick, Action)>, ghost parts: seq<seq<Message>>, ghost requeues: seq<seq<(Tick, Action)>>)
      requires chain.Valid()
      ensures EmitsAll(due, parts, requeues)
      ensures messages == Flatten(parts) && requeued == Flatten(requeues)
    {
      messages, requeued := [], [];
      parts, requeues := [], [];
      for k := 0 to |due|
        invariant EmitsAll(due[..k], parts, requeues)
        invariant messages == Flatten(parts) && requeued == Flatten(requeues)
      {
        var out, again := Perform(due[k]);
        messages := messages + out;
        requeued := requeued + again;
        assert (parts + [out])[..k] == parts && (requeues + [again])[..k] == requeues;
        assert due[..k + 1][..k] == due[..k] && due[..k + 1][k] == due[k];
        parts := parts + [out];
        requeues := requeues + [again];
      }
      assert due[..|due|] == due;
    }

    /** process_actions: takes the entries due at `currentTick` off the queue,
        keeping the others in order, and carries the due ones out in order;
        entries postponed on the way go to the end of the queue. `parts` and
        `requeues` name what each due entry produced. */
    method ProcessActions(currentTick: Tick) returns (messages: seq<Message>, ghost parts: seq<seq<Message>>, ghost requeues: seq<seq<(Tick, Action)>>)
      requires Valid()
      modifies this`actions
      ensures Valid()
      ensures EmitsAll(Due(old(actions), currentTick), parts, requeues)
      ensures messages == Flatten(parts)
      ensures actions == Later(old(actions), currentTick) + Flatten(requeues)
    {
      var due := Due(actions, currentTick);
      actions := Later(actions, currentTick);
      var requeued;
      messages, requeued, parts, requeues := PerformAll(due);
      actions := actions + requeued;
    }

    /** The commit already known for the received commit's block, if any,
        agrees with it; the source asserts this. */
    predicate AgreesWithKnownCommit(commit: Commit)
      reads this`chain, chain
      requires chain.Valid()
    {
      commit.targetNumber in chain.commits ==> chain.commits[commit.targetNumber] == commit
    }

    /** The queue entry that asks about `roundNumber` for a conflicting commit's block. */
    function AskEntry(tick: Tick, roundNumber: RoundNumber, commit: Commit, blockNotIncluded: BlockNumber): (Tick, Action)
    {
      (tick + RETRY_DELAY, AskVotersAboutEstimate(Query(roundNumber, commit.Ids(), blockNotIncluded)))
    }

    /** The known commits whose block the received commit's block does not descend from. */
    method ConflictingCommits(target: BlockNumber) returns (conflicting: seq<BlockNumber>)
      requires chain.Valid() && target in chain.blocks
      ensures NoDuplicates(conflicting)
      ensures forall n :: n in conflicting <==> n in chain.commits && !chain.Descends(target, n)
    {
      conflicting := [];
      var rest := chain.commits.Keys;
      while rest != {}
        invariant rest <= chain.commits.Keys
        invariant NoDuplicates(conflicting)
        invariant forall n :: n in conflicting <==> n in chain.commits && n !in rest && !chain.Descends(target, n)
        decreases |rest|
      {
        var n :| n in rest;
        var descends := chain.IsDescendent(target, n);
        if !descends {
          conflicting := conflicting + [n];
        }
        rest := rest - {n};
      }
    }

    /** `instance` was started for the known commit of block `n`, with the
        query about `roundNumber` to `voters` opened. */
    ghost predicate StartedFor(instance: AccountableSafety, n: BlockNumber, roundNumber: RoundNumber, voters: seq<VoterId>)
      reads instance, this`chain, chain
    {
      && n in chain.commits && n in chain.finalizedRounds
      && instance.Valid()
      && instance.blockNotIncluded == n
      && instance.roundForBlockNotIncluded == chain.finalizedRounds[n]
      && instance.commitForBlockNotIncluded == chain.commits[n]
      && instance.queryingRounds == map[roundNumber := QueryState(roundNumber, voters, map[])]
    }

    /** Starts one accountable-safety instance per block in `conflicting`,
        queueing its first query. */
    method StartInstances(roundNumber: RoundNumber, commit: Commit, conflicting: seq<BlockNumber>, currentTick: Tick)
        returns (ghost started: seq<AccountableSafety>)
      requires Valid()
      requires forall n | n in conflicting :: n in chain.commits
      modifies this`actions, this`accountableSafety
      ensures Valid()
      ensures actions == old(actions) + seq(|conflicting|, i requires 0 <= i < |conflicting| =>
        AskEntry(currentTick, roundNumber, commit, conflicting[i]))
      ensures accountableSafety == old(accountableSafety) + started
      ensures |started| == |conflicting|
      ensures forall i | 0 <= i < |conflicting| :: fresh(started[i])
      ensures forall i | 0 <= i < |conflicting| :: StartedFor(started[i], conflicting[i], roundNumber, commit.Ids())
    {
      started := [];
      for k := 0 to |conflicting|
        invariant Valid()
        invariant actions == old(actions) + seq(k, i requires 0 <= i < k =>
          AskEntry(currentTick, roundNumber, commit, conflicting[i]))
        invariant accountableSafety == old(accountableSafety) + started
        invariant |started| == k
        invariant forall i | 0 <= i < k :: fresh(started[i])
        invariant forall i | 0 <= i < k :: StartedFor(started[i], conflicting[i], roundNumber, commit.Ids())
      {
        var blockNotIncluded := conflicting[k];
        assert blockNotIncluded in conflicting;
        var roundForBlockNotIncluded := chain.finalizedRounds[blockNotIncluded];
        var instance := new AccountableSafety.Start(blockNotIncluded, roundForBlockNotIncluded, chain.commits[blockNotIncluded]);
        var query := instance.StartQueryRound(roundNumber, commit.Ids());
        actions := actions + [(currentTick + RETRY_DELAY, AskVotersAboutEstimate(query))];
        accountableSafety := accountableSafety + [instance];
        started := started + [instance];
      }
    }

    /** HereIsCommit: a known commit is ignored; a commit for an unknown block
        is postponed and the block requested; otherwise one accountable-safety
        instance is started, and its first query queued, for every known
        commit the new one conflicts with. The commit itself is not stored. */
    method HandleCommit(sender: VoterId, roundNumber: RoundNumber, commit: Commit, currentTick: Tick)
        returns (responses: seq<(VoterId, Response)>, ghost conflicting: seq<BlockNumber>, ghost started: seq<AccountableSafety>)
      requires Valid()
      requires AgreesWithKnownCommit(commit)
      modifies this`actions, this`accountableSafety
      ensures Valid()
      ensures commit.targetNumber in chain.commits ==>
        responses == [] && actions == old(actions) && accountableSafety == old(accountableSafety)
      ensures commit.targetNumber !in chain.commits && commit.targetNumber !in chain.blocks ==>
        && responses == [(sender, RequestBlock(commit.targetNumber))]
        && actions == old(actions) + [(currentTick + RETRY_DELAY, RequeueRequest(sender, HereIsCommit(roundNumber, commit)))]
        && accountableSafety == old(accountableSafety)
      ensures commit.targetNumber !in chain.commits && commit.targetNumber in chain.blocks ==>
        && responses == []
        && NoDuplicates(conflicting)
        && (forall n :: n in conflicting <==> n in chain.commits && !chain.Descends(commit.targetNumber, n))
        && actions == old(actions) + seq(|conflicting|, i requires 0 <= i < |conflicting| =>
             AskEntry(currentTick, roundNumber, commit, conflicting[i]))
        && accountableSafety == old(accountableSafety) + started
        && |started| == |conflicting|
        && (forall i | 0 <= i < |conflicting| :: fresh(started[i]))
        && (forall i | 0 <= i < |conflicting| :: StartedFor(started[i], conflicting[i], roundNumber, commit.Ids()))
    {
      responses := [];
      conflicting, started := [], [];
      if chain.CommitForBlock(commit.targetNumber).Some? {
        return;
      }
      if !chain.KnowsAboutBlock(commit.targetNumber) {
        actions := actions + [(currentTick + RETRY_DELAY, RequeueRequest(sender, HereIsCommit(roundNumber, commit)))];
        responses := [(sender, RequestBlock(commit.targetNumber))];
        return;
      }
      var conflictingCommits := ConflictingCommits(commit.targetNumber);
      conflicting := conflictingCommits;
      started := StartInstances(roundNumber, commit, conflictingCommits, currentTick);
    }

    /** HereAreBlocks: every unknown block is added to the ledger, in order;
        the source asserts that every known one is identical. */
    method HandleBlocks(blocks: seq<Block>)
      requires Valid()
      requires Deliverable(chain.blocks, blocks)
      modifies chain
      ensures Valid()
      ensures chain.blocks == Absorb(old(chain.blocks), blocks)
      ensures chain.commits == old(chain.commits) && chain.finalizedRounds == old(chain.finalizedRounds)
    {
      for i := 0 to |blocks|
        invariant Valid()
        invariant Deliverable(chain.blocks, blocks[i..])
        invariant Absorb(chain.blocks, blocks[i..]) == Absorb(old(chain.blocks), blocks)
        invariant chain.commits == old(chain.commits) && chain.finalizedRounds == old(chain.finalizedRounds)
      {
        var block := blocks[i];
        assert blocks[i..][0] == block && blocks[i..][1..] == blocks[i + 1..];
        var known := chain.GetBlock(block.number);
        if known.None? {
          chain.AddBlock(block);
        }
      }
    }

    /** The recorded alternatives of round `round - 1`, as candidate replies. */
    ghost function EstimateCandidates(round: RoundNumber): seq<QueryResponse>
      reads this, votingRounds, if round >= 1 && round - 1 in votingRounds.rounds then votingRounds.rounds[round - 1] else []
      requires round >= 1 && round - 1 in votingRounds.rounds
    {
      Candidates(votingRounds.rounds[round - 1], behaviour)
    }

    /** WhyDidEstimateForRoundNotIncludeBlock: explains the estimate with the one
        recorded alternative of the previous round whose votes show that the
        block could not have had a supermajority. The source panics unless
        `round - 1` is a recorded round with exactly one such alternative. */
    method HandleEstimateQuery(sender: VoterId, round: RoundNumber, blockNotIncluded: BlockNumber)
        returns (responses: seq<(VoterId, Response)>)
      requires Valid()
      requires round >= 1 && round - 1 in votingRounds.rounds
      requires AllCheckable(EstimateCandidates(round), blockNotIncluded, chain)
      requires |PassingPositions(EstimateCandidates(round), blockNotIncluded, voterSet.voters, chain)| == 1
      ensures |responses| == 1 && responses[0].0 == sender
      ensures responses[0].1.ExplainEstimate? && responses[0].1.explainedRound == round
      ensures forall i | i in PassingPositions(EstimateCandidates(round), blockNotIncluded, voterSet.voters, chain) ::
        responses[0].1.explanation == EstimateCandidates(round)[i]
    {
      var alternatives := votingRounds.Get(round - 1);
      var candidates := Candidates(alternatives.value, behaviour);
      var voterIds := voterSet.VoterIds();
      assert Members(voterIds) == voterSet.voters;
      var response := SelectValidQueryResponse(candidates, blockNotIncluded, voterIds, chain);
      responses := [(sender, ExplainEstimate(round, response))];
    }

    /** handle_request: dispatches on the request. The source does not handle
        WhichPrevotesSeenInRound yet. */
    method HandleRequest(sender: VoterId, request: Request, currentTick: Tick)
        returns (responses: seq<(VoterId, Response)>, ghost conflicting: seq<BlockNumber>, ghost started: seq<AccountableSafety>)
      requires Valid()
      requires !request.WhichPrevotesSeenInRound?
      requires request.HereIsCommit? ==> AgreesWithKnownCommit(request.commit)
      requires request.HereAreBlocks? ==> Deliverable(chain.blocks, request.blocks)
      requires request.WhyDidEstimateForRoundNotIncludeBlock? ==>
        && request.estimateRound >= 1 && request.estimateRound - 1 in votingRounds.rounds
        && AllCheckable(EstimateCandidates(request.estimateRound), request.blockNotIncluded, chain)
        && |PassingPositions(EstimateCandidates(request.estimateRound), request.blockNotIncluded, voterSet.voters, chain)| == 1
      modifies this`actions, this`accountableSafety, chain
      ensures Valid()
      ensures !request.HereAreBlocks? ==> chain.blocks == old(chain.blocks)
      ensures chain.commits == old(chain.commits) && chain.finalizedRounds == old(chain.finalizedRounds)
      ensures request.HereAreBlocks? ==>
        chain.blocks == Absorb(old(chain.blocks), request.blocks) && responses == [] &&
        actions == old(actions) && accountableSafety == old(accountableSafety)
      ensures request.HereIsCommit? && request.commit.targetNumber in chain.commits ==>
        responses == [] && actions == old(actions) && accountableSafety == old(accountableSafety)
      ensures request.HereIsCommit? && request.commit.targetNumber !in chain.commits && request.commit.targetNumber !in chain.blocks ==>
        && responses == [(sender, RequestBlock(request.commit.targetNumber))]
        && actions == old(actions) + [(currentTick + RETRY_DELAY, RequeueRequest(sender, request))]
        && accountableSafety == old(accountableSafety)
      ensures request.HereIsCommit? && request.commit.targetNumber !in chain.commits && request.commit.targetNumber in chain.blocks ==>
        && responses == []
        && NoDuplicates(conflicting)
        && (forall n :: n in conflicting <==> n in chain.commits && !chain.Descends(request.commit.targetNumber, n))
        && actions == old(actions) + seq(|conflicting|, i requires 0 <= i < |conflicting| =>
             AskEntry(currentTick, request.round, request.commit, conflicting[i]))
        && accountableSafety == old(accountableSafety) + started
        && |started| == |conflicting|
        && (forall i | 0 <= i < |conflicting| :: fresh(started[i]))
        && (forall i | 0 <= i < |conflicting| :: StartedFor(started[i], conflicting[i], request.round, request.commit.Ids()))
      ensures request.WhyDidEstimateForRoundNotIncludeBlock? ==>
        && actions == old(actions) && accountableSafety == old(accountableSafety)
        && |responses| == 1 && responses[0].0 == sender
        && responses[0].1.ExplainEstimate? && responses[0].1.explainedRound == request.estimateRound
    {
      match request {
        case HereIsCommit(roundNumber, commit) =>
          responses, conflicting, started := HandleCommit(sender, roundNumber, commit, currentTick);
        case HereAreBlocks(blocks) =>
          conflicting, started := [], [];
          HandleBlocks(blocks);
          responses := [];
        case WhyDidEstimateForRoundNotIncludeBlock(round, blockNotIncluded) =>
          conflicting, started := [], [];
          responses := HandleEstimateQuery(sender, round, blockNotIncluded);
      }
    }

    /** handle_response: a block request schedules sending the block; an
        explanation goes to the first accountable-safety instance, whose next
        query, if any, is scheduled. The engine takes the precommits of
        the explanation only, and the source does not handle PrevotesSeen yet. */
    method HandleResponse(sender: VoterId, response: Response, currentTick: Tick)
      requires Valid()
      requires !response.PrevotesSeen?
      requires response.ExplainEstimate? ==>
        && |accountableSafety| > 0
        && response.explanation.Precommits?
        && response.explainedRound in accountableSafety[0].queryingRounds
        && (response.explainedRound != accountableSafety[0].roundForBlockNotIncluded + 1 ==> response.explainedRound >= 1)
      modifies this`actions, if |accountableSafety| > 0 then {accountableSafety[0]} else {}
      ensures Valid()
      ensures response.RequestBlock? ==>
        actions == old(actions) + [(currentTick + RETRY_DELAY, SendBlock(sender, response.blockNumber))]
      ensures |accountableSafety| > 0 ==>
        var instance := accountableSafety[0];
        && instance.blockNotIncluded == old(instance.blockNotIncluded)
        && instance.roundForBlockNotIncluded == old(instance.roundForBlockNotIncluded)
        && instance.commitForBlockNotIncluded == old(instance.commitForBlockNotIncluded)
        && (response.RequestBlock? ==> instance.queryingRounds == old(instance.queryingRounds))
      ensures response.ExplainEstimate? ==>
        var instance := accountableSafety[0];
        var step := ResponseStep(old(instance.queryingRounds), old(instance.roundForBlockNotIncluded), old(instance.blockNotIncluded),
                                 response.explainedRound, sender, response.explanation.precommits);
        && instance.queryingRounds == step.0
        && actions == old(actions) + (if step.1.Some? then [(currentTick + RETRY_DELAY, AskVotersAboutEstimate(step.1.value))] else [])
    {
      match response {
        case RequestBlock(blockNumber) =>
          actions := actions + [(currentTick + RETRY_DELAY, SendBlock(sender, blockNumber))];
        case ExplainEstimate(roundNumber, queryResponse) =>
          var instance := accountableSafety[0];
          var query := instance.AddResponse(roundNumber, sender, queryResponse.precommits, chain);
          var nextQuery := if query.Some? then Some(AskAboutRound(query.value)) else None;
          if nextQuery.Some? {
            actions := actions + [(currentTick + RETRY_DELAY, NextAction(nextQuery.value))];
          }
      }
    }
  }
}
