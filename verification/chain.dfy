/** The block ledger of one participant (chain.rs): a parent-linked tree of blocks
    rooted at genesis, the commits that finalized blocks and the rounds they were
    finalized in. */
module Ledger {
  import opened Wrappers
  import opened Seqs
  import opened Blocks
  import opened Votes

  /** Walks up the parent links stop after this many hops; the source reads a
      longer walk as a cycle. */
  const MAX_HEIGHT: nat := 10000
  const MAX_BLOCK_LENGTH: nat := 10000

  function Min(a: nat, b: nat): nat
  {
    if a <= b then a else b
  }

  /** Genesis and the block numbers of the first `k` (number, parent) pairs. */
  ghost function KnownAfter(pairs: seq<(BlockNumber, BlockNumber)>, k: nat): set<BlockNumber>
    requires k <= |pairs|
  {
    if k == 0 then {0} else KnownAfter(pairs, k - 1) + {pairs[k - 1].0}
  }

  /** Pair `k` names a known parent and a new number once the pairs before it are added. */
  ghost predicate PairFits(pairs: seq<(BlockNumber, BlockNumber)>, k: nat)
    requires k < |pairs|
  {
    pairs[k].1 in KnownAfter(pairs, k) && pairs[k].0 !in KnownAfter(pairs, k)
  }

  /** The pairs can be added block by block to a ledger holding only genesis:
      each parent is known when its child arrives and no number arrives twice. */
  ghost predicate InsertableInOrder(pairs: seq<(BlockNumber, BlockNumber)>)
  {
    forall k: nat | k < |pairs| :: PairFits(pairs, k)
  }

  /** `blocks` holds genesis and exactly the first `k` pairs, each filed as the
      block it describes. */
  ghost predicate BuiltFrom(blocks: map<BlockNumber, Block>, pairs: seq<(BlockNumber, BlockNumber)>, k: nat)
    requires k <= |pairs|
  {
    && blocks.Keys == KnownAfter(pairs, k)
    && forall i | 0 <= i < k :: pairs[i].0 in blocks && blocks[pairs[i].0] == Block(pairs[i].0, pairs[i].1)
  }

  /** Filing pair `k` under a fresh number extends what is built by one pair. */
  lemma BuiltNext(blocks: map<BlockNumber, Block>, pairs: seq<(BlockNumber, BlockNumber)>, k: nat)
    requires k < |pairs| && BuiltFrom(blocks, pairs, k) && pairs[k].0 !in blocks
    ensures BuiltFrom(blocks[pairs[k].0 := Block(pairs[k].0, pairs[k].1)], pairs, k + 1)
  {
    var after := blocks[pairs[k].0 := Block(pairs[k].0, pairs[k].1)];
    assert after.Keys == blocks.Keys + {pairs[k].0};
  }

  class Chain {
    var blocks: map<BlockNumber, Block>
    var commits: map<BlockNumber, Commit>
    var finalizedRounds: map<BlockNumber, RoundNumber>
    /** Number of parent hops from each known block down to genesis. */
    ghost var depth: map<BlockNumber, nat>

    /** A non-genesis block is one hop further from genesis than its parent. */
    ghost predicate DepthStep(n: BlockNumber)
      reads this`blocks, this`depth
    {
      n in blocks && n != 0 ==>
        n in depth && blocks[n].parent in depth && depth[n] == depth[blocks[n].parent] + 1
    }

    /** A known block is filed under its own number and its parent is known. */
    ghost predicate Filed(n: BlockNumber)
      reads this`blocks
    {
      n in blocks ==> blocks[n].number == n && blocks[n].parent in blocks
    }

    /** Genesis is present, every block is filed under its own number and has a
        known parent, every non-genesis block is one hop further from genesis than
        its parent (so the parent links form a tree), and every finalized block
        has both its commit, whose target is that block, and its round. */
    ghost predicate Valid()
      reads this
    {
      && 0 in blocks && blocks[0] == Block(0, 0)
      && depth.Keys == blocks.Keys && depth[0] == 0
      && (forall n :: Filed(n))
      && (forall n :: DepthStep(n))
      && commits.Keys == finalizedRounds.Keys
      && (forall n | n in commits :: commits[n].targetNumber == n)
    }

    /** A ledger that holds only genesis and has finalized nothing. */
    constructor ()
      ensures Valid()
      ensures blocks == map[0 := Block(0, 0)]
      ensures commits == map[] && finalizedRounds == map[]
    {
      blocks := map[0 := Block(0, 0)];
      commits := map[];
      finalizedRounds := map[];
      depth := map[0 := 0];
      new;
      forall n
        ensures DepthStep(n)
      {
      }
    }

    /** A ledger built from genesis by adding the given (number, parent) pairs in order. */
    static method NewFrom(pairs: seq<(BlockNumber, BlockNumber)>) returns (chain: Chain)
      requires InsertableInOrder(pairs)
      ensures fresh(chain) && chain.Valid()
      ensures BuiltFrom(chain.blocks, pairs, |pairs|)
      ensures chain.commits == map[] && chain.finalizedRounds == map[]
    {
      chain := new Chain();
      var k := 0;
      while k < |pairs|
        invariant k <= |pairs|
        invariant fresh(chain) && chain.Valid()
        invariant BuiltFrom(chain.blocks, pairs, k)
        invariant chain.commits == map[] && chain.finalizedRounds == map[]
      {
        assert PairFits(pairs, k);
        BuiltNext(chain.blocks, pairs, k);
        chain.AddBlock(NewBlock(pairs[k].0, pairs[k].1));
        k := k + 1;
      }
    }

    /** Inserts a block whose parent is known and whose number is new; the source
        asserts both. */
    method AddBlock(block: Block)
      requires Valid()
      requires block.parent in blocks
      requires block.number !in blocks
      modifies this
      ensures Valid()
      ensures blocks == old(blocks)[block.number := block]
      ensures depth == old(depth)[block.number := old(depth)[block.parent] + 1]
      ensures commits == old(commits) && finalizedRounds == old(finalizedRounds)
      ensures KnowsAboutBlock(block.number)
    {
      ghost var d := depth[block.parent] + 1;
      blocks := blocks[block.number := block];
      depth := depth[block.number := d];
      forall n
        ensures Filed(n)
      {
        if n != block.number && n in blocks {
          assert old(Filed(n));
        }
      }
      forall n
        ensures DepthStep(n)
      {
        if n != block.number && n in blocks {
          assert old(DepthStep(n));
        }
      }
    }

    /** Records the commit and the round that finalized `block`; the source asserts
        that the commit targets `block` and that `block` was not finalized before. */
    method FinalizeBlock(block: BlockNumber, roundNumber: RoundNumber, commit: Commit)
      requires Valid()
      requires block == commit.targetNumber
      requires block !in commits
      modifies this
      ensures Valid()
      ensures commits == old(commits)[block := commit]
      ensures finalizedRounds == old(finalizedRounds)[block := roundNumber]
      ensures blocks == old(blocks) && depth == old(depth)
      ensures CommitForBlock(block) == Some(commit) && FinalizedRound(block) == Some(roundNumber)
    {
      commits := commits[block := commit];
      finalizedRounds := finalizedRounds[block := roundNumber];
    }

    /** Number of parent hops from `block` to genesis. The walk stops after
        MAX_HEIGHT hops, and the source then asserts ("Maybe a loop"): so a block
        that far from genesis is excluded. */
    method BlockHeight(block: BlockNumber) returns (height: nat)
      requires Valid() && block in blocks
      requires depth[block] < MAX_HEIGHT
      ensures height == depth[block]
    {
      assert Filed(block);
      var b := blocks[block];
      height := 0;
      while b.number > 0 && height < MAX_HEIGHT
        invariant b.number in blocks && blocks[b.number] == b
        invariant height + depth[b.number] == depth[block]
        decreases MAX_HEIGHT - height
      {
        assert DepthStep(b.number) && Filed(b.number) && Filed(b.parent);
        b := blocks[b.parent];
        height := height + 1;
      }
      assert height < MAX_HEIGHT;
    }

    /** The height of a block is one more than the height of its parent. */
    lemma ParentHeight(block: BlockNumber)
      requires Valid() && block in blocks && block != 0
      ensures blocks[block].number == block && !blocks[block].IsGenesis()
      ensures blocks[block].parent in blocks
      ensures depth[block] == depth[blocks[block].parent] + 1
    {
      assert DepthStep(block) && Filed(block);
    }

    function CommitForBlock(block: BlockNumber): (r: Option<Commit>)
      reads this
      requires Valid()
      ensures r.Some? ==> r.value.targetNumber == block
    {
      if block in commits then Some(commits[block]) else None
    }

    function FinalizedRound(block: BlockNumber): (r: Option<RoundNumber>)
      reads this
      requires Valid()
      ensures r.Some? <==> CommitForBlock(block).Some?
    {
      if block in finalizedRounds then Some(finalizedRounds[block]) else None
    }

    /** A block is known exactly when it can be fetched. */
    function KnowsAboutBlock(block: BlockNumber): (r: bool)
      reads this
      requires Valid()
      ensures r <==> GetBlock(block).Some?
    {
      block in blocks
    }

    function GetBlock(block: BlockNumber): (r: Option<Block>)
      reads this
      requires Valid()
      ensures r.Some? ==> r.value.number == block && r.value.parent in blocks
    {
      if block in blocks then assert Filed(block); Some(blocks[block]) else None
    }

    // ---------------------------------------------------------------------
    // Ancestry

    /** The walk of is_descendent with `fuel` hops left: true when some block met
        on the way down from `block` (genesis and `block` itself excluded as
        starting points of a hop) has `ancestor` as its parent. */
    function DescendsWithin(block: BlockNumber, ancestor: BlockNumber, fuel: nat): bool
      reads this
      requires Valid() && block in blocks
      decreases fuel
    {
      if blocks[block].IsGenesis() || fuel == 0 then false
      else if blocks[block].parent == ancestor then true
      else assert Filed(block); DescendsWithin(blocks[block].parent, ancestor, fuel - 1)
    }

    function Descends(block: BlockNumber, ancestor: BlockNumber): bool
      reads this
      requires Valid() && block in blocks
    {
      DescendsWithin(block, ancestor, MAX_BLOCK_LENGTH)
    }

    /** `block` is `ancestor` or descends from it. */
    function Includes(block: BlockNumber, ancestor: BlockNumber): bool
      reads this
      requires Valid() && (block == ancestor || block in blocks)
    {
      block == ancestor || Descends(block, ancestor)
    }

    /** The ancestor `k` hops below `block` (reference definition of ancestry). */
    ghost function AncestorAt(block: BlockNumber, k: nat): (a: BlockNumber)
      reads this
      requires Valid() && block in blocks && k <= depth[block]
      ensures a in blocks && depth[a] == depth[block] - k
      decreases k
    {
      if k == 0 then block
      else
        assert DepthStep(block);
        AncestorAt(blocks[block].parent, k - 1)
    }

    /** A walk that finds `ancestor` found it some `k` hops down, within the fuel. */
    lemma {:induction false} DescendsWithinWitness(block: BlockNumber, ancestor: BlockNumber, fuel: nat) returns (k: nat)
      requires Valid() && block in blocks
      requires DescendsWithin(block, ancestor, fuel)
      ensures 1 <= k <= Min(depth[block], fuel) && AncestorAt(block, k) == ancestor
      decreases fuel
    {
      assert Filed(block) && DepthStep(block);
      var p := blocks[block].parent;
      assert AncestorAt(block, 1) == p;
      if p == ancestor {
        k := 1;
      } else {
        var j := DescendsWithinWitness(p, ancestor, fuel - 1);
        k := j + 1;
        assert AncestorAt(block, k) == AncestorAt(p, j);
      }
    }

    /** The walk finds every ancestor at most `fuel` hops down. */
    lemma {:induction false} DescendsWithinReaches(block: BlockNumber, ancestor: BlockNumber, fuel: nat, k: nat)
      requires Valid() && block in blocks
      requires 1 <= k <= Min(depth[block], fuel) && AncestorAt(block, k) == ancestor
      ensures DescendsWithin(block, ancestor, fuel)
      decreases fuel
    {
      assert Filed(block) && DepthStep(block);
      var p := blocks[block].parent;
      assert AncestorAt(block, 1) == p;
      if p != ancestor {
        assert AncestorAt(block, k) == AncestorAt(p, k - 1);
        DescendsWithinReaches(p, ancestor, fuel - 1, k - 1);
      }
    }

    /** The walk finds `ancestor` exactly when `ancestor` is one of the first
        `fuel` proper ancestors of `block`. */
    lemma DescendsWithinIsAncestry(block: BlockNumber, ancestor: BlockNumber, fuel: nat)
      requires Valid() && block in blocks
      ensures DescendsWithin(block, ancestor, fuel) <==>
              exists k :: 1 <= k <= Min(depth[block], fuel) && AncestorAt(block, k) == ancestor
    {
      if DescendsWithin(block, ancestor, fuel) {
        var k := DescendsWithinWitness(block, ancestor, fuel);
      }
      if exists k :: 1 <= k <= Min(depth[block], fuel) && AncestorAt(block, k) == ancestor {
        var k :| 1 <= k <= Min(depth[block], fuel) && AncestorAt(block, k) == ancestor;
        DescendsWithinReaches(block, ancestor, fuel, k);
      }
    }

    /** Every block the walk finds is strictly closer to genesis. */
    lemma DescendsLowersDepth(block: BlockNumber, ancestor: BlockNumber)
      requires Valid() && block in blocks
      requires Descends(block, ancestor)
      ensures ancestor in blocks && depth[ancestor] < depth[block]
    {
      DescendsWithinIsAncestry(block, ancestor, MAX_BLOCK_LENGTH);
    }

    /** No block descends from itself, every block includes itself, and of two
        blocks at most one descends from the other. */
    lemma DescendsIsStrict(x: BlockNumber, y: BlockNumber)
      requires Valid() && x in blocks && y in blocks
      ensures !Descends(x, x) && Includes(x, x)
      ensures !(Descends(x, y) && Descends(y, x))
    {
      if Descends(x, x) {
        DescendsLowersDepth(x, x);
      }
      if Descends(x, y) && Descends(y, x) {
        DescendsLowersDepth(x, y);
        DescendsLowersDepth(y, x);
      }
    }

    /** Genesis descends from nothing, and a non-genesis block descends from its parent. */
    lemma DescendsFromParent(block: BlockNumber, ancestor: BlockNumber)
      requires Valid() && block in blocks
      ensures !Descends(0, ancestor)
      ensures block != 0 ==> Descends(block, blocks[block].parent)
    {
      assert Filed(block);
    }

    /** is_descendent: the bounded walk down the parent links. */
    method IsDescendent(block: BlockNumber, ancestor: BlockNumber) returns (r: bool)
      requires Valid() && block in blocks
      ensures r == Descends(block, ancestor)
    {
      var length := 0;
      assert Filed(block);
      var b := blocks[block];
      while !b.IsGenesis() && length < MAX_BLOCK_LENGTH
        invariant length <= MAX_BLOCK_LENGTH
        invariant b.number in blocks && blocks[b.number] == b
        invariant Descends(block, ancestor) == DescendsWithin(b.number, ancestor, MAX_BLOCK_LENGTH - length)
      {
        if b.parent == ancestor {
          return true;
        }
        assert Filed(b.number) && Filed(b.parent);
        b := blocks[b.parent];
        length := length + 1;
      }
      return false;
    }

    /** block_includes: `block` is `ancestor` or descends from it. */
    method BlockIncludes(block: BlockNumber, ancestor: BlockNumber) returns (r: bool)
      requires Valid() && (block == ancestor || block in blocks)
      ensures r <==> block == ancestor || Descends(block, ancestor)
    {
      if block == ancestor {
        return true;
      }
      r := IsDescendent(block, ancestor);
    }

    // ---------------------------------------------------------------------
    // Chain of blocks

    /** The blocks from the one nearest genesis up to `block`, oldest first,
        genesis excluded, taking at most `fuel` hops below `block`. */
    function Lineage(block: BlockNumber, fuel: nat): seq<Block>
      reads this
      requires Valid() && block in blocks
      decreases fuel
    {
      if blocks[block].IsGenesis() then []
      else if fuel == 0 then [blocks[block]]
      else assert Filed(block); Lineage(blocks[block].parent, fuel - 1) + [blocks[block]]
    }

    /** What get_chain_of_blocks returns: empty for an unknown block. */
    function ChainOfBlocks(block: BlockNumber): seq<Block>
      reads this
      requires Valid()
    {
      if block !in blocks then [] else Lineage(block, MAX_BLOCK_LENGTH)
    }

    /** A lineage is empty only for genesis; otherwise it ends with the block
        itself, holds only known non-genesis blocks, links each block to the
        previous one as its parent, and has one entry per hop to genesis (cut at
        fuel + 1 entries), starting right above genesis when not cut. */
    lemma {:induction false} LineageShape(block: BlockNumber, fuel: nat)
      requires Valid() && block in blocks
      ensures var r := Lineage(block, fuel);
        && (r == [] <==> block == 0)
        && (r != [] ==> r[|r| - 1] == blocks[block])
        && (forall i | 0 <= i < |r| :: r[i].number != 0 && r[i].number in blocks && blocks[r[i].number] == r[i])
        && (forall i | 0 < i < |r| :: r[i].parent == r[i - 1].number)
        && |r| == Min(depth[block], fuel + 1)
        && (r != [] && depth[block] <= fuel + 1 ==> r[0].parent == 0)
      decreases fuel
    {
      if block == 0 {
        assert Filed(0);
      } else {
        var p := blocks[block].parent;
        ParentHeight(block);
        assert DepthStep(p) && Filed(p);
        if fuel != 0 {
          LineageShape(p, fuel - 1);
          var pre := Lineage(p, fuel - 1);
          var r := pre + [blocks[block]];
          assert Lineage(block, fuel) == r;
          if pre != [] {
            assert pre[|pre| - 1] == blocks[p];
            assert r[0] == pre[0];
          }
          forall i | 0 <= i < |r|
            ensures r[i].number != 0 && r[i].number in blocks && blocks[r[i].number] == r[i]
          {
            if i < |pre| {
              assert r[i] == pre[i];
            }
          }
          forall i | 0 < i < |r|
            ensures r[i].parent == r[i - 1].number
          {
            if i < |pre| {
              assert r[i] == pre[i] && r[i - 1] == pre[i - 1];
            }
          }
        }
      }
    }

    /** get_chain_of_blocks: collects `block` and its ancestors newest first,
        stopping before genesis or after MAX_BLOCK_LENGTH hops, then reverses. */
    method GetChainOfBlocks(block: BlockNumber) returns (result: seq<Block>)
      requires Valid()
      ensures result == ChainOfBlocks(block)
    {
      var pushed: seq<Block> := [];
      var b: Block;
      match GetBlock(block) {
        case None =>
          return pushed;
        case Some(found) =>
          if found.IsGenesis() {
            return pushed;
          }
          assert Filed(block) && found == blocks[block];
          pushed := pushed + [found];
          b := found;
      }
      var length := 0;
      while !b.IsGenesis() && length < MAX_BLOCK_LENGTH
        invariant length <= MAX_BLOCK_LENGTH
        invariant b.number in blocks && blocks[b.number] == b && !b.IsGenesis() && b.parent in blocks
        invariant ChainOfBlocks(block) ==
          (if length == MAX_BLOCK_LENGTH then [] else Lineage(b.parent, MAX_BLOCK_LENGTH - length - 1))
          + Reverse(pushed)
      {
        // The parent is always known in a valid ledger, so the source's
        // `get_block` lookup of it succeeds.
        ParentHeight(b.number);
        assert Filed(b.parent);
        var p := blocks[b.parent];
        if p.IsGenesis() {
          break;
        }
        assert length + 1 < MAX_BLOCK_LENGTH ==>
          Lineage(b.parent, MAX_BLOCK_LENGTH - length - 1) == Lineage(p.parent, MAX_BLOCK_LENGTH - length - 2) + [p];
        ReverseSnoc(pushed, p);
        pushed := pushed + [p];
        b := p;
        length := length + 1;
      }
      result := Reverse(pushed);
    }
  }

  /** The blocks of the ledger used by the source's own tests:
      0 -> 1 -> 2 -> 3 -> 4 and a longer fork 1 -> 5 -> 6 -> 7 -> 8. */
  function TestBlocks(): map<BlockNumber, Block>
  {
    map[0 := Block(0, 0), 1 := Block(1, 0), 2 := Block(2, 1), 3 := Block(3, 2), 4 := Block(4, 3),
        5 := Block(5, 1), 6 := Block(6, 5), 7 := Block(7, 6), 8 := Block(8, 7)]
  }

  /** Builds the test ledger block by block, as the source's tests do. */
  method CreateTestChain() returns (chain: Chain)
    ensures fresh(chain) && chain.Valid()
    ensures chain.blocks == TestBlocks()
    ensures chain.depth == map[0 := 0, 1 := 1, 2 := 2, 3 := 3, 4 := 4, 5 := 2, 6 := 3, 7 := 4, 8 := 5]
  {
    chain := new Chain();
    AddFirstFork(chain);
    AddSecondFork(chain);
  }

  /** Block 1 and the first fork of the test ledger: 0 -> 1 -> 2 -> 3 -> 4. */
  method AddFirstFork(chain: Chain)
    requires chain.Valid()
    requires chain.blocks == map[0 := Block(0, 0)] && chain.depth == map[0 := 0]
    modifies chain
    ensures chain.Valid()
    ensures chain.blocks == map[0 := Block(0, 0), 1 := Block(1, 0), 2 := Block(2, 1), 3 := Block(3, 2), 4 := Block(4, 3)]
    ensures chain.depth == map[0 := 0, 1 := 1, 2 := 2, 3 := 3, 4 := 4]
  {
    chain.AddBlock(Block(1, 0));
    chain.AddBlock(Block(2, 1));
    chain.AddBlock(Block(3, 2));
    chain.AddBlock(Block(4, 3));
  }

  /** The second, longer, fork of the test ledger: 1 -> 5 -> 6 -> 7 -> 8. */
  method AddSecondFork(chain: Chain)
    requires chain.Valid()
    requires chain.blocks == map[0 := Block(0, 0), 1 := Block(1, 0), 2 := Block(2, 1), 3 := Block(3, 2), 4 := Block(4, 3)]
    requires chain.depth == map[0 := 0, 1 := 1, 2 := 2, 3 := 3, 4 := 4]
    modifies chain
    ensures chain.Valid()
    ensures chain.blocks == TestBlocks()
    ensures chain.depth == map[0 := 0, 1 := 1, 2 := 2, 3 := 3, 4 := 4, 5 := 2, 6 := 3, 7 := 4, 8 := 5]
  {
    chain.AddBlock(Block(5, 1));
    chain.AddBlock(Block(6, 5));
    AddSecondForkTip(chain);
  }

  /** The last two blocks of the second fork: 6 -> 7 -> 8. */
  method AddSecondForkTip(chain: Chain)
    requires chain.Valid()
    requires chain.blocks == map[0 := Block(0, 0), 1 := Block(1, 0), 2 := Block(2, 1), 3 := Block(3, 2), 4 := Block(4, 3),
                                 5 := Block(5, 1), 6 := Block(6, 5)]
    requires chain.depth == map[0 := 0, 1 := 1, 2 := 2, 3 := 3, 4 := 4, 5 := 2, 6 := 3]
    modifies chain
    ensures chain.Valid()
    ensures chain.blocks == TestBlocks()
    ensures chain.depth == map[0 := 0, 1 := 1, 2 := 2, 3 := 3, 4 := 4, 5 := 2, 6 := 3, 7 := 4, 8 := 5]
  {
    chain.AddBlock(Block(7, 6));
    chain.AddBlock(Block(8, 7));
  }

  /** Heights of the two fork tips (tests block_height and fork_updates_head). */
  method TestBlockHeight() returns (h4: nat, h8: nat)
    ensures h4 == 4 && h8 == 5
  {
    var chain := CreateTestChain();
    h4 := chain.BlockHeight(4);
    h8 := chain.BlockHeight(8);
  }

  /** Ancestry in the test ledger (test is_ancestor). */
  lemma TestAncestry(chain: Chain)
    requires chain.Valid() && chain.blocks == TestBlocks()
    ensures forall b | 1 <= b <= 4 :: !chain.Descends(b, b) && chain.Includes(b, b)
    ensures chain.Descends(2, 1) && chain.Descends(3, 1) && chain.Descends(4, 1)
    ensures !chain.Descends(2, 5) && !chain.Descends(3, 5) && !chain.Descends(4, 5)
    ensures chain.Descends(5, 1) && chain.Descends(6, 1) && chain.Descends(7, 1) && chain.Descends(8, 1)
    ensures !chain.Descends(5, 2) && !chain.Descends(6, 2) && !chain.Descends(7, 2) && !chain.Descends(8, 2)
  {
    forall b | 1 <= b <= 4
      ensures !chain.Descends(b, b) && chain.Includes(b, b)
    {
      chain.DescendsIsStrict(b, b);
    }
    forall f: nat ensures !chain.DescendsWithin(1, 5, f) && !chain.DescendsWithin(1, 2, f) {}
    forall f: nat ensures !chain.DescendsWithin(2, 5, f) && !chain.DescendsWithin(5, 2, f) {}
    forall f: nat ensures !chain.DescendsWithin(3, 5, f) && !chain.DescendsWithin(6, 2, f) {}
    forall f: nat ensures !chain.DescendsWithin(4, 5, f) && !chain.DescendsWithin(7, 2, f) {}
    forall f: nat ensures !chain.DescendsWithin(8, 2, f) {}
    forall f: nat | 1 <= f ensures chain.DescendsWithin(2, 1, f) && chain.DescendsWithin(5, 1, f) {}
    forall f: nat | 2 <= f ensures chain.DescendsWithin(3, 1, f) && chain.DescendsWithin(6, 1, f) {}
    forall f: nat | 3 <= f ensures chain.DescendsWithin(4, 1, f) && chain.DescendsWithin(7, 1, f) {}
    forall f: nat | 4 <= f ensures chain.DescendsWithin(8, 1, f) {}
  }

  /** The chain of blocks below block 3 (test get_chain_of_blocks). */
  method TestGetChainOfBlocks() returns (c3: seq<Block>)
    ensures c3 == [Block(1, 0), Block(2, 1), Block(3, 2)]
  {
    var chain := CreateTestChain();
    c3 := chain.GetChainOfBlocks(3);
    assert chain.Lineage(1, MAX_BLOCK_LENGTH - 2) == [Block(1, 0)];
    assert chain.Lineage(2, MAX_BLOCK_LENGTH - 1) == [Block(1, 0), Block(2, 1)];
  }
}
