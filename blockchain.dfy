/** The ledger object: a list of blocks that its methods reassign and append to. */
module Chains {
  import opened Wrappers
  import opened Blocks
  import opened ChainSpec

  class Blockchain {
    /** The hash engine every block of this ledger is hashed with. */
    const engine: HashEngine
    var chain: seq<Block>

    /** A new ledger holding only a genesis block stamped `now`. */
    constructor (engine: HashEngine, now: Timestamp)
      ensures this.engine == engine
      ensures chain == [Genesis(engine, now)]
      ensures chain == Build(engine, now, [])
      ensures ValidChain(engine, chain)
    {
      this.engine := engine;
      new;
      InitializeChain();
      AddGenesisBlock(now);
    }

    /** Replaces the list by an empty one. */
    method InitializeChain()
      modifies this
      ensures chain == []
    {
      chain := [];
    }

    /** Appends a genesis block stamped `now`, whatever the list holds. */
    method AddGenesisBlock(now: Timestamp)
      modifies this
      ensures chain == old(chain) + [Genesis(engine, now)]
    {
      chain := chain + [Genesis(engine, now)];
    }

    /** The last block; an empty list is out of range. */
    function GetLatestBlock(): (b: Block)
      reads this
      requires |chain| > 0
      ensures b == chain[|chain| - 1]
    {
      chain[|chain| - 1]
    }

    /** Appends a block carrying `data`, stamped `now`, linked to the head and numbered after it. */
    method AddBlock(data: string, now: Timestamp)
      requires |chain| > 0
      modifies this
      ensures chain == AppendBlock(engine, old(chain), data, now)
      ensures |chain| == |old(chain)| + 1 && chain[..|old(chain)|] == old(chain)
      ensures chain[|chain| - 1].previousHash == Some(old(GetLatestBlock()).hash)
      ensures chain[|chain| - 1].index == Increment(old(GetLatestBlock()).index)
      ensures chain[|chain| - 1].data == data
      ensures old(ValidChain(engine, chain)) ==> ValidChain(engine, chain)
    {
      var latestBlock := GetLatestBlock();
      var newBlock := NewBlock(engine, now, Some(latestBlock.hash), data);
      newBlock := newBlock.(index := Increment(latestBlock.index));
      chain := chain + [newBlock];
      if old(ValidChain(engine, chain)) {
        AppendPreservesValid(engine, old(chain), data, now);
      }
    }

    /** Scans from the second block, stopping at the first stale hash or broken link. */
    method IsValid() returns (ok: bool)
      ensures ok <==> ValidChain(engine, chain)
    {
      var i := 1;
      while i < |chain|
        invariant 1 <= i && (i <= |chain| || i == 1)
        invariant forall k | 1 <= k < i && k < |chain| :: ValidAt(engine, chain, k)
      {
        var currentBlock := chain[i];
        var previousBlock := chain[i - 1];
        if currentBlock.hash != currentBlock.CalculateHash(engine) {
          assert !ValidAt(engine, chain, i);
          return false;
        }
        if currentBlock.previousHash != Some(previousBlock.hash) {
          assert !ValidAt(engine, chain, i);
          return false;
        }
        i := i + 1;
      }
      return true;
    }

    /**
     * Replaces the list by what was read from the snapshot: nothing happens
     * when the file is missing, and a null result resets to a genesis-only
     * ledger. An empty list is kept as it is.
     */
    method LoadFromFile(fileExists: bool, loaded: Option<seq<Block>>, now: Timestamp)
      modifies this
      ensures !fileExists ==> chain == old(chain)
      ensures fileExists && loaded.None? ==> chain == [Genesis(engine, now)]
      ensures fileExists && loaded.Some? ==> chain == loaded.value
    {
      if !fileExists {
        return;
      }
      chain := loaded.GetOr([]);
      if loaded.None? {
        InitializeChain();
        AddGenesisBlock(now);
      }
    }
  }

  /**
   * The shell's session "add hello", "add world", "validate" on a new ledger:
   * three blocks, and the check passes.
   */
  method AddAndValidate(e: HashEngine, t0: Timestamp, t1: Timestamp, t2: Timestamp)
    returns (valid: bool, length: nat, head: Block)
    ensures valid && length == 3
    ensures head.data == "world" && head.index == 2
  {
    var ledger := new Blockchain(e, t0);
    ledger.AddBlock("hello", t1);
    ledger.AddBlock("world", t2);
    valid := ledger.IsValid();
    length := |ledger.chain|;
    head := ledger.GetLatestBlock();
  }
}
