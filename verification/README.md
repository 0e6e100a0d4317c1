# GRANDPA accountable safety — a Dafny model

This project models the core of `grandpa-accountable-safety`. That repository simulates the
accountable-safety protocol of the GRANDPA finality gadget. When a participant learns of two
finality certificates (commits) for blocks on different forks, it questions the voters round by
round, backwards. Each voter is asked why its estimate did not include the block finalized
earlier. Each answer must show that the block could not have had a supermajority. Replies are
cross-checked against the earlier commit to expose the voters who equivocated.

The model is split into one Dafny module per concern, following the source files:

| module | file | models |
|---|---|---|
| `Wrappers` | wrappers.dfy | `Option` |
| `Seqs` | seqs.dfy | `NoDuplicates`, `Distinct` (the `unique()` adaptor), `Reverse`, `Flatten` |
| `Blocks` | block.dfy | `src/block.rs`: the block record and the genesis test |
| `Votes` | votes.dfy | the value types of `src/voting.rs`: voter set, prevote, precommit, commit |
| `Ledger` | chain.dfy | `src/chain.rs`: the `Chain` class and its parent-link walks |
| `Queries` | queries.dfy | the reply, equivocation and query types the engine and the participants exchange |
| `Voting` | voting.dfy | the rest of `src/voting.rs`: recorded rounds, the reply check, the two cross-checks |
| `Protocol` | protocol.dfy | `src/protocol.rs`: `QueryState` and the `AccountableSafety` engine |
| `Messages` | message.dfy | `src/message.rs`: requests, responses, payloads, messages |
| `Participant` | voter.dfy | `src/voter.rs`: the action queue and the request and response handlers of a `Voter` |

How state is modelled:

- **Chain.** A class with `map` fields for blocks, commits and finalized rounds.
  - A ghost `depth` map gives each block's number of hops to genesis.
  - `Valid()` says five things:
    - genesis is present;
    - every block is filed under its own number, and its parent is known;
    - each non-genesis block is one hop deeper than its parent, so the links form a tree;
    - every finalized block has both its commit and its round;
    - every stored commit targets the block it is filed under.
  - The walks of `is_descendent`, `block_height` and `get_chain_of_blocks` are `while` loops.
    `is_descendent` is proved against the recursive predicate `DescendsWithin`, which
    `DescendsWithinIsAncestry` ties to the recursive `AncestorAt`. `get_chain_of_blocks` is proved
    against `ChainOfBlocks`, which is built on the recursive `Lineage`. `block_height` is proved
    against the ghost `depth` map.
- **VotingRound and VotingRounds.** Classes whose methods append to their `seq` and `map` fields.
- **AccountableSafety.** A class whose `querying_rounds` map is reassigned by its methods. Each per-round `QueryState` is a value in that map.
- **Voter.** A class holding its chain, its action queue (`seq<(Tick, Action)>`) and its engine instances.

The source handles some inputs only with `assert!`, `unwrap()` or `todo!()`. For those inputs
the model has a `requires` clause that states the demand.

Places where the model follows the code rather than the repository's own comments and tests:

- **Re-delivered commits.** The handler opens with the comment "Ignore commits we already know
  about" (`src/voter.rs:205`). It only ignores a commit, however, when the ledger already holds a
  commit for that block, and it never stores the commit it receives (`src/voter.rs:204-267`). So
  the same commit delivered again starts the same engine instances again.
  `Participant.Voter.HandleCommit` states this behaviour.
- **Prevote cross-check records.** The end-to-end test expects each prevote equivocation to list
  two blocks, `vec![1, 4]` (`src/tests.rs:371-383`). The cross-check in the code records one
  block, the reply's target (`src/voting.rs:335`). The model records one block.

## Model

| member | source | states |
|---|---|---|
| Blocks.NewBlock | src/block.rs:28-30 | the new block has the given number and parent |
| Blocks.GenesisIsOneBlock | src/block.rs:32-34 | a block is genesis iff it is `Block(0, 0)`; a block numbered 0 with another parent is not genesis |
| Votes.NewVoterSet | src/voting.rs:36-40 | a name is a member iff it is among the given names |
| Votes.VoterSet.IsMember | src/voting.rs:42-44 | a voter is a member exactly when adding it leaves the set's size unchanged; adding a non-member grows the set by one |
| Votes.VoterSet.VoterIds | src/voting.rs:46-48 | every member listed exactly once; the length is the set's size |
| Votes.Commit.Ids | src/voting.rs:195-199 | one id per precommit, in order; an id occurs exactly when some precommit is by that voter |
| Ledger.Chain.constructor | src/chain.rs:32-44 | the ledger holds only genesis `Block(0, 0)`, has no commits and no finalized rounds, and is valid |
| Ledger.Chain.NewFrom | src/chain.rs:46-54 | adding the pairs in order gives a valid ledger holding genesis plus exactly those blocks, with no commits |
| Ledger.Chain.AddBlock | src/chain.rs:56-63 | with a known parent and a new number: the block is added, nothing else changes, validity is kept, and the block is known |
| Ledger.Chain.FinalizeBlock | src/chain.rs:65-78 | for a commit targeting a block not yet finalized: records commit and round, keeps the blocks; afterwards the block's commit and round are the given ones |
| Ledger.Chain.BlockHeight | src/chain.rs:80-90 | the height returned is the block's number of hops to genesis (below the loop guard's bound) |
| Ledger.Chain.ParentHeight | src/chain.rs:80-90 | a non-genesis block's height is its parent's height plus one, and its parent is known |
| Ledger.Chain.CommitForBlock | src/chain.rs:92-94 | a commit found for a block targets that block |
| Ledger.Chain.FinalizedRound | src/chain.rs:161-163 | a block has a finalized round iff it has a commit |
| Ledger.Chain.KnowsAboutBlock | src/chain.rs:121-123 | a block is known exactly when it can be fetched |
| Ledger.Chain.GetBlock | src/chain.rs:125-127 | a block found carries the asked number and has a known parent |
| Ledger.Chain.DescendsWithinWitness | src/chain.rs:100-113 | a successful walk found the ancestor some k hops down, k within both the fuel and the depth |
| Ledger.Chain.DescendsWithinReaches | src/chain.rs:100-113 | every proper ancestor within the fuel is found by the walk |
| Ledger.Chain.DescendsWithinIsAncestry | src/chain.rs:100-113 | the walk succeeds iff the ancestor is one of the block's first `fuel` proper ancestors |
| Ledger.Chain.DescendsLowersDepth | src/chain.rs:100-113 | a block descends only from known blocks strictly closer to genesis |
| Ledger.Chain.DescendsIsStrict | src/chain.rs:100-119 | no block descends from itself, every block includes itself, and descent is antisymmetric |
| Ledger.Chain.DescendsFromParent | src/chain.rs:105-108 | genesis descends from nothing; a non-genesis block descends from its parent |
| Ledger.Chain.IsDescendent | src/chain.rs:100-113 | the bounded cursor loop returns exactly the recursive ancestry walk |
| Ledger.Chain.BlockIncludes | src/chain.rs:117-119 | true iff the two blocks are equal or the first descends from the second |
| Ledger.Chain.LineageShape | src/chain.rs:129-159 | the chain of blocks is empty only for genesis; otherwise it ends with the block, holds only known non-genesis blocks, links each to the previous as parent, and starts right above genesis |
| Ledger.Chain.GetChainOfBlocks | src/chain.rs:129-159 | the push-then-reverse loop returns the oldest-first lineage, empty for an unknown block |
| Ledger.CreateTestChain | src/chain.rs:176-196 | the test ledger holds the two forks 0-1-2-3-4 and 1-5-6-7-8 |
| Ledger.TestBlockHeight | src/chain.rs:198-223 | in the test ledger blocks 4 and 8 have heights 4 and 5 |
| Ledger.TestAncestry | src/chain.rs:225-260 | the ancestry facts of the `is_ancestor` test |
| Ledger.TestGetChainOfBlocks | src/chain.rs:262-282 | the chain of blocks of block 3 is 1, 2, 3 |
| Voting.VotingRound.New | src/voting.rs:98-107 | a round with no votes, no finalized block and tag 0 |
| Voting.VotingRound.NewWithTag | src/voting.rs:109-118 | a round with no votes, no finalized block and the given tag |
| Voting.VotingRound.Prevote | src/voting.rs:120-129 | with every voter a member: the prevotes are appended in order, the rest is untouched, all votes stay by members |
| Voting.VotingRound.Precommit | src/voting.rs:131-140 | with every voter a member: the precommits are appended in order, the rest is untouched, all votes stay by members |
| Voting.VotingRounds.constructor | src/voting.rs:57-59 | no rounds recorded |
| Voting.VotingRounds.Get | src/voting.rs:61-63 | the list of alternatives of a round iff it is recorded |
| Voting.VotingRounds.Add | src/voting.rs:65-72 | the alternative is appended to its round's list; every earlier alternative of every round is kept, in order |
| Voting.VotingRounds.Extend | src/voting.rs:74-76 | the rounds of the other collection replace whole lists; the others stay unchanged |
| Voting.CountIncludingIsSupport | src/voting.rs:236-240 | the one-by-one count of supporting targets equals the number of supporting positions |
| Voting.CheckQueryReplyIsValid | src/voting.rs:216-259 | no finding iff 3·(supporting + absent) ≤ 2·voters; otherwise an invalid-response finding |
| Voting.ReplyCheckMonotone | src/voting.rs:249 | more supporting or more absent voters can only turn a valid reply invalid |
| Voting.ConflictingPrecommits | src/voting.rs:272-278 | exactly the reply precommits by the same voter for another block |
| Voting.PrecommitEquivocationSound | src/voting.rs:262-308 | every record pairs a reply precommit with a conflicting commit precommit and lists [reply target, commit target] |
| Voting.PrecommitEquivocationComplete | src/voting.rs:262-308 | every conflicting pair of reply and commit precommits is recorded |
| Voting.CrossCheckPrecommitReplyAgainstCommit | src/voting.rs:262-308 | the loop collects the records of all conflicting pairs; no finding iff there are none |
| Voting.SameVoterPrevotes | src/voting.rs:316-319 | exactly the reply prevotes by the voter of a seen prevote |
| Voting.PrevoteEquivocationSound | src/voting.rs:310-347 | every record names a reply prevote whose voter also has a seen prevote, with the reply target as its one block |
| Voting.PrevoteEquivocationComplete | src/voting.rs:310-347 | every reply prevote whose voter has a seen prevote is recorded |
| Voting.PrevoteEquivocationsFound | src/voting.rs:310-347 | there is a record iff some voter occurs in both lists |
| Voting.CrossCheckPrevoteReplyAgainstPrevotesSeen | src/voting.rs:310-347 | the loop collects those records; no finding iff there are none |
| Voting.TestCrossCheckPrecommits1 | src/voting.rs:353-383 | a reply matching the commit yields no finding |
| Voting.TestPrecommitRecords | src/voting.rs:384-416 | Alice precommitting 1 in the reply and 2 in the commit gives the one record Alice [1, 2] |
| Voting.TestCrossCheckPrecommits2 | src/voting.rs:384-416 | that cross-check returns the precommit finding with that record |
| Protocol.QueryState.AddResponse | src/protocol.rs:49-51 | the reply is stored under its voter, replacing an earlier one; other replies, the round and the voters are kept |
| Seqs.DistinctFirstOccurrenceOrder | src/protocol.rs:126-130 | `Distinct` lists the elements in the order of their first occurrences, as `unique()` yields them |
| Protocol.ReplyVoters | src/protocol.rs:126-130 | the reply's voters, each once, in the order of their first appearance in the reply |
| Protocol.ReplyVotersOrderDecides | src/protocol.rs:126-130 | on the reply Alice, Bob, Alice, the contract of `ReplyVoters` alone admits only Alice, Bob |
| Protocol.ResponseStep | src/protocol.rs:95-138 | reply stored; a query is issued iff the round is not the one after the finalized round and the previous round is new; that query asks round - 1, about the same block, the reply's distinct voters; only `round` and `round - 1` change |
| Protocol.ResponseStepOnce | src/protocol.rs:117-135 | a second reply about the same round opens nothing |
| Protocol.AccountableSafety.Start | src/protocol.rs:63-74 | stores the block, its round and its commit; no round queried |
| Protocol.AccountableSafety.StartQueryRound | src/protocol.rs:77-93 | the round gets a fresh state with the given voters; the query names that round, those voters and the instance's block |
| Protocol.AccountableSafety.AddResponse | src/protocol.rs:95-138 | the new state and the query returned are exactly `ResponseStep` of the old state |
| Protocol.TestReplyVoters | src/protocol.rs:126-130 | the voters of Alice, Bob, Alice are Alice, Bob, derived from the contract of `ReplyVoters` |
| Protocol.TestQueryBackwards | src/protocol.rs:95-138 | a reply about round 3 opens round 2 for Alice and Bob; a second reply and a reply about the round after the finalized one open nothing |
| Messages.Payload.GetRequest | src/message.rs:46-51 | a request iff the payload is a request, and it is the one wrapped |
| Messages.Payload.GetResponse | src/message.rs:53-58 | a response iff the payload is a response, and it is the one wrapped |
| Messages.PayloadRoundTrip | src/message.rs:46-58 | wrapping then unwrapping gives the value back; the other accessor gives nothing |
| Participant.Due | src/voter.rs:87-92 | exactly the queued entries triggered at or before the tick |
| Participant.Later | src/voter.rs:93 | exactly the queued entries triggered after the tick |
| Participant.DueLaterPartition | src/voter.rs:87-93 | the due and the later entries together are the queue, as a multiset |
| Participant.AddressedTo | src/voter.rs:136-172 | one message per receiver, in order, from the sender, carrying the request |
| Participant.AbsorbKeeps | src/voter.rs:268-278 | taking in blocks never changes or drops a known block |
| Participant.AbsorbFiles | src/voter.rs:268-278 | after a delivery every delivered block is known as delivered; the known numbers are the old ones plus the delivered ones |
| Participant.AbsorbKnown | src/voter.rs:270-272 | delivering blocks all known as they are changes nothing |
| Participant.RedeliveryIsNoOp | src/voter.rs:268-278 | delivering the same blocks a second time changes nothing |
| Participant.Candidates | src/voter.rs:286-312 | one candidate per recorded alternative: its precommits by default, its prevotes under `ReturnPrevotes` |
| Participant.Passing | src/voter.rs:328-338 | exactly the candidates that pass the reply check |
| Participant.SinglePassing | src/voter.rs:328-341 | when exactly one candidate position passes, the filter's first element is that candidate |
| Participant.SelectValidQueryResponse | src/voter.rs:323-342 | with exactly one passing position: returns that candidate, which passes the reply check |
| Participant.Voter.New | src/voter.rs:51-67 | the given fields, an empty queue and no engine instance |
| Participant.Voter.AddActions | src/voter.rs:69-73 | the entries are appended in order after the existing ones |
| Participant.Voter.CommitsFor | src/voter.rs:178-196 | one announcement of each known commit, with its round, to the receiver |
| Participant.Voter.CreateBroadcastCommitMessages | src/voter.rs:178-196 | each (other voter, known commit) pair announced exactly once, never to itself |
| Participant.Voter.AskEach | src/voter.rs:136-172 | the request sent from this voter to each receiver in order |
| Participant.Voter.ShouldQueueUp | src/voter.rs:119-124 | a re-queued request is held back exactly when it announces a commit for a block still unknown; every other request goes out |
| Participant.Voter.Perform | src/voter.rs:96-173 | the messages and re-queued entries of one action, as `Emits` defines them per action |
| Participant.Voter.PerformAll | src/voter.rs:95-174 | the due actions carried out in order; the messages are the concatenation of their outputs |
| Participant.Voter.ProcessActions | src/voter.rs:85-176 | the queue keeps the later entries in order, then gets the postponed ones; the messages are those of the due entries in order |
| Participant.Voter.ConflictingCommits | src/voter.rs:222-231 | each known commit whose block the new target does not descend from, once |
| Participant.Voter.StartInstances | src/voter.rs:235-266 | one fresh engine instance per conflicting commit, seeded with that commit and querying the new commit's voters at its round, plus one query action at tick + 10 each |
| Participant.Voter.HandleCommit | src/voter.rs:204-267 | a known commit changes nothing; an unknown block is requested and the commit requeued at tick + 10; otherwise one instance and one query action per conflicting commit; the commit is never stored |
| Participant.Voter.HandleBlocks | src/voter.rs:268-278 | the ledger's blocks become the old ones with the unknown delivered blocks added in order; commits untouched |
| Participant.Voter.HandleEstimateQuery | src/voter.rs:279-315 | the sender gets one explanation for the round: the one alternative of the previous round that passes the reply check |
| Participant.NextAction | src/voter.rs:366-373 | a round query becomes the action asking about estimates, carrying the same query; a prevote query becomes the action asking which prevotes were seen, carrying that query |
| Participant.Voter.HandleRequest | src/voter.rs:198-321 | a commit is handled in its three cases as `HandleCommit` states them (known: nothing changes; unknown block: request and requeue; otherwise one instance and one query per conflicting commit); delivered blocks as `HandleBlocks` states; an estimate question gets one explanation of the asked round to the sender |
| Participant.Voter.HandleResponse | src/voter.rs:344-379 | a block request queues sending the block at tick + 10 and leaves the instance's queries as they were; an explanation updates the first instance's queries as `ResponseStep` computes from the old state and queues its next query at tick + 10; the instance's commit, round and block are never changed |

## Left out

- Integer widths: block and round numbers are `u32`/`u64` and ticks are `usize` in the source. They are unbounded here. The `round - 1` and `tick + 10` operations cannot wrap in the model.
- The scheduler and router of `src/world.rs`, the scenarios of `src/main.rs` and `src/example.rs`, and all console output are not part of this model.
- `src/action.rs` is not part of this model. The five action variants are taken from their uses in `src/voter.rs`.
- Hash map and hash set iteration order: the broadcast messages, the voter ids and the conflicting commits are specified as sets of elements, each occurring once, in no fixed order.
- The 10000-step bound of the ledger walks is kept as fuel. A block 10000 or more hops from genesis is excluded by `BlockHeight`'s precondition, where the source asserts.
- `VotingRounds` holds references to `VotingRound` objects, while `add` at `src/voting.rs:65-72` moves the round value into the map. No contract depends on this: no method of the model changes a round after adding it, so no update through another reference is captured or excluded.
- `QueryState` is modelled as a value held in the engine's map. Updating it in place and replacing the map entry are the same here, because the map owns it.
- `precommit_reply_is_valid2` (called at `src/protocol.rs:106`) is not part of this model: `src/voting.rs` does not define it, and its result is discarded, so it changes nothing.
- Protocol.AccountableSafety.AddResponse: the `chain` parameter is unused, since only that missing call reads it. The cross-check result at `src/protocol.rs:113-116` is computed and discarded, as in the source.
- Participant.Voter.HandleResponse: the engine of `src/protocol.rs` accepts precommits only, while the participant passes a whole reply. So an explanation made of prevotes is excluded by a precondition. The engine's query is wrapped as the next action to ask about a round.
- Participant.Voter.HandleResponse: a `PrevotesSeen` response is excluded by a precondition, because the handler has no branch for it.
- Participant.Voter.HandleRequest: the `WhichPrevotesSeenInRound` request is excluded by a precondition, because its branch is `todo!()`.
- Participant.Voter.HandleRequest: for `WhyDidEstimateForRoundNotIncludeBlock` it states only the shape of the reply (one explanation of the asked round to the sender). Which alternative is chosen is stated by `Participant.Voter.HandleEstimateQuery`, which it calls.
- Voting.CheckQueryReplyIsValid: a reply naming the same voter twice is excluded by a precondition, because that branch is `todo!()` in the source. Every target must be the questioned block or a known block, because the ledger walk needs a known start.
- `equivocations_detected` (`src/voter.rs:381-386`) is not modelled: the `AccountableSafety` of `src/protocol.rs` keeps no record of findings to collect.
- Participant.Voter.PerformAll: the source pushes a postponed entry onto the queue while it walks the due entries. The model collects the postponed entries and appends them after the walk. The queue ends up the same, because no due entry reads the queue.
- Participant.Voter.ProcessActions: a `BroadcastCommits` action is specified by the set of messages it produces, not their order.
