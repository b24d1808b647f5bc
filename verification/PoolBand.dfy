/**
 * `PoolBand`: a bump allocator over a doubly linked chain of blocks that `clear` keeps for reuse.
 * Every method is proved against the state machine in `PoolRuns`.
 */
module PoolBand {
  import opened PoolRuns

  /** The header of a block; its payload is addressed by offsets from the end of the header. */
  class Block {
    var prev: Block?
    var next: Block?

    constructor (prev: Block?)
      ensures this.prev == prev && next == null
    {
      this.prev := prev;
      next := null;
    }
  }

  ghost function Neighbour(chain: seq<Block>, i: int): Block? {
    if 0 <= i < |chain| then chain[i] else null
  }

  /** Distinct blocks, each leading to the one before it and, up to the last, to the one behind it. */
  ghost predicate Rising(chain: seq<Block>)
    reads chain
  {
    && (forall i, j :: 0 <= i < j < |chain| ==> chain[i] != chain[j])
    && (forall i :: 0 <= i < |chain| ==> chain[i].prev == Neighbour(chain, i - 1))
    && (forall i :: 0 <= i < |chain| - 1 ==> chain[i].next == chain[i + 1])
  }

  ghost predicate Linked(chain: seq<Block>)
    reads chain
  {
    Rising(chain) && (chain != [] ==> chain[|chain| - 1].next == null)
  }

  lemma LinkedNext(chain: seq<Block>, i: nat)
    requires Linked(chain) && i < |chain|
    ensures chain[i].next == Neighbour(chain, i + 1) && chain[i].prev == Neighbour(chain, i - 1)
  {
  }

  /** Once the last block leads to a new one, the chain is linked with that block behind it. */
  lemma AppendIsLinked(chain: seq<Block>, block: Block)
    requires Rising(chain) && block !in chain && block.prev == Neighbour(chain, |chain| - 1) && block.next == null
    requires chain != [] ==> chain[|chain| - 1].next == block
    ensures Linked(chain + [block])
  {
    var all := chain + [block];
    forall i | 0 <= i < |all| ensures all[i].prev == Neighbour(all, i - 1) {
      assert i < |chain| ==> chain[i].prev == Neighbour(chain, i - 1);
    }
  }

  class Pool {
    const blockSize: nat
    var active: nat
    var blocks: nat
    var currentBlock: Block?
    var firstBlock: Block?
    var currentSlot: nat        // offset into the current block; 0 stands for null without one
    var end: nat
    ghost var chain: seq<Block>
    ghost var cursor: nat

    constructor (blockSize: nat)
      ensures Valid() && View() == FRESH && chain == [] && this.blockSize == blockSize
    {
      this.blockSize := blockSize;
      active, blocks := 0, 0;
      currentBlock, firstBlock := null, null;
      currentSlot, end := 0, 0;
      chain, cursor := [], 0;
    }

    /** The blocks form one chain from `firstBlock`, linked both ways, and `currentBlock` is on it. */
    ghost predicate Valid()
      reads this, chain
    {
      && blocks == |chain| && Linked(chain) && firstBlock == Neighbour(chain, 0)
      && (if chain == [] then currentBlock == null && cursor == 0 && currentSlot == 0 && end == 0
          else cursor < |chain| && currentBlock == chain[cursor] && end == blockSize)
    }

    ghost function View(): State
      reads this
    {
      State(blocks, cursor, currentSlot, active)
    }

    method InitializeBlock(nextBlock: Block, ghost index: nat)
      modifies this`currentBlock, this`currentSlot, this`end, this`cursor
      ensures currentBlock == nextBlock && currentSlot == 0 && end == blockSize && cursor == index
    {
      currentBlock := nextBlock;
      currentSlot := 0;
      end := blockSize;
      cursor := index;
    }

    /** Links a block that was allocated behind the current one, which is the last of the chain. */
    method SetNextBlock(nextBlock: Block)
      requires nextBlock !in chain && nextBlock.prev == currentBlock && nextBlock.next == null
      requires blocks == |chain| + 1 && Linked(chain)
      requires firstBlock == Neighbour(chain, 0) && currentBlock == Neighbour(chain, |chain| - 1)
      modifies this, if currentBlock == null then {} else {currentBlock}`next
      ensures Valid() && chain == old(chain) + [nextBlock] && View() == State(blocks, |chain| - 1, 0, active)
      ensures blocks == old(blocks) && active == old(active)
    {
      if currentBlock != null {
        currentBlock.next := nextBlock;
      }
      if firstBlock == null {
        firstBlock := nextBlock;
      }
      AppendIsLinked(chain, nextBlock);
      hide Linked, Rising;
      InitializeBlock(nextBlock, |chain|);
      chain := chain + [nextBlock];
    }

    method AllocateBlock()
      requires Valid()
      modifies this, chain
      ensures Valid() && old(chain) <= chain
      ensures var i := NextBlock(old(View()));
              View() == State(if i < old(blocks) then old(blocks) else i + 1, i, 0, old(active))
      ensures forall b :: b in chain && b !in old(chain) ==> fresh(b)
    {
      if currentBlock != null {
        LinkedNext(chain, cursor);
      }
      hide Linked;
      if currentBlock != null && currentBlock.next != null {
        InitializeBlock(currentBlock.next, cursor + 1);
        assert chain == old(chain) && Valid();
      } else {
        assert NextBlock(View()) == blocks == |chain|;
        blocks := blocks + 1;
        var newBlock := new Block(currentBlock);
        SetNextBlock(newBlock);
        assert chain == old(chain) + [newBlock];
      }
    }

    /** Returns the block and the offset of `size` new bytes. */
    method Allocate(size: nat) returns (block: Block, offset: nat)
      requires Valid() && size >= 1
      modifies this, chain
      ensures Valid() && old(chain) <= chain
      ensures View() == PoolRuns.Allocate(blockSize, old(View()), size)
      ensures var a := Place(blockSize, old(View()), size);
              a.block < |chain| && block == chain[a.block] && offset == a.offset
      ensures forall b :: b in chain && b !in old(chain) ==> fresh(b)
    {
      hide Linked;
      active := active + 1;
      if currentSlot + size > end {
        AllocateBlock();
      }
      block, offset := currentBlock, currentSlot;
      currentSlot := currentSlot + size;
    }

    method Clear()
      requires Valid()
      modifies this
      ensures Valid() && chain == old(chain) && View() == PoolRuns.Clear(old(View()))
    {
      hide Linked;
      active := 0;
      if firstBlock != null {
        InitializeBlock(firstBlock, 0);
      }
    }

    /**
     * The destructor walks back from the current block. It frees that block and everything before
     * it, each once, so nothing is leaked if and only if the current block is the last one.
     */
    method Destroy() returns (freed: seq<Block>)
      requires Valid()
      ensures freed == Backwards(chain, Reached(), 0)
      ensures (forall b :: b in chain ==> b in freed) <==> chain == [] || cursor == |chain| - 1
    {
      var current := currentBlock;
      freed := [];
      ghost var k := Reached();
      while current != null
        invariant 0 <= k <= Reached() && current == Neighbour(chain, k - 1)
        invariant freed == Backwards(chain, Reached(), k)
        decreases k
      {
        LinkedNext(chain, k - 1);
        freed := freed + [current];
        current := current.prev;
        k := k - 1;
      }
      FreesAllIff(chain, Reached());
    }

    /** The number of blocks up to and including the current one. */
    ghost function Reached(): (n: nat)
      requires Valid()
      reads this, chain
      ensures n <= |chain|
    {
      if chain == [] then 0 else cursor + 1
    }
  }

  /** The blocks from number `n - 1` back to number `k`. */
  ghost function Backwards(chain: seq<Block>, n: nat, k: nat): seq<Block>
    requires k <= n <= |chain|
    decreases n - k
  {
    if k == n then [] else Backwards(chain, n, k + 1) + [chain[k]]
  }

  lemma {:induction false} BackwardsHolds(chain: seq<Block>, n: nat, k: nat)
    requires k <= n <= |chain|
    requires forall i, j :: 0 <= i < j < |chain| ==> chain[i] != chain[j]
    ensures |Backwards(chain, n, k)| == n - k
    ensures forall i :: 0 <= i < |chain| ==> (chain[i] in Backwards(chain, n, k) <==> k <= i < n)
    ensures forall i :: 0 <= i < n - k ==> Backwards(chain, n, k)[i] == chain[n - 1 - i]
    decreases n - k
  {
    if k < n {
      BackwardsHolds(chain, n, k + 1);
    }
  }

  lemma FreesAllIff(chain: seq<Block>, n: nat)
    requires n <= |chain|
    requires forall i, j :: 0 <= i < j < |chain| ==> chain[i] != chain[j]
    ensures (forall b :: b in chain ==> b in Backwards(chain, n, 0)) <==> n == |chain|
  {
    BackwardsHolds(chain, n, 0);
    if n < |chain| {
      assert chain[n] in chain && chain[n] !in Backwards(chain, n, 0);
    }
  }
}
