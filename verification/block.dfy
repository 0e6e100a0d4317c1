/** A block of the chain: its own number and the number of its parent. */
module Blocks {

  type BlockNumber = nat

  /** Equality of blocks is structural: both fields. */
  datatype Block = Block(number: BlockNumber, parent: BlockNumber)
  {
    /** Genesis is block 0 and it is its own parent. */
    predicate IsGenesis()
    {
      number == 0 && parent == 0
    }
  }

  function NewBlock(number: BlockNumber, parent: BlockNumber): (b: Block)
    ensures b.number == number && b.parent == parent
  {
    Block(number, parent)
  }

  /** The genesis test singles out exactly one block value: a block numbered 0
      whose parent is not 0 is not genesis, and no block numbered above 0 is. */
  lemma GenesisIsOneBlock(b: Block)
    ensures b.IsGenesis() <==> b == Block(0, 0)
    ensures b.number == 0 && b.parent != 0 ==> !b.IsGenesis()
  {
  }
}
