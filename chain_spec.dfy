/**
 * The ledger as a sequence of blocks: what a valid chain is, what appending
 * a block does, and which chains construction plus appends can produce.
 */
module ChainSpec {
  import opened Wrappers
  import opened AsciiEncoding
  import opened Blocks

  /** The payload of the genesis block. */
  const GenesisData: string := "{}"

  /** The genesis block: no predecessor, an empty JSON object as data. */
  function Genesis(e: HashEngine, now: Timestamp): (g: Block)
    ensures g.index == 0 && g.previousHash == None && g.data == GenesisData
    ensures g.timeStamp == now && g.HashIsCurrent(e)
  {
    NewBlock(e, now, None, GenesisData)
  }

  /** Block `i` (never the genesis) holds its own hash and points at its predecessor's hash. */
  predicate ValidAt(e: HashEngine, c: seq<Block>, i: int)
    requires 1 <= i < |c|
  {
    c[i].HashIsCurrent(e) && c[i].previousHash == Some(c[i - 1].hash)
  }

  /** Every block after the genesis passes both checks. */
  predicate ValidChain(e: HashEngine, c: seq<Block>) {
    forall i | 1 <= i < |c| :: ValidAt(e, c, i)
  }

  /** The chain after appending `data` at time `now` to the non-empty chain `c`. */
  function AppendBlock(e: HashEngine, c: seq<Block>, data: string, now: Timestamp): (r: seq<Block>)
    requires |c| > 0
    ensures |r| == |c| + 1 && r[..|c|] == c
    ensures r[|c|].previousHash == Some(c[|c| - 1].hash)
    ensures r[|c|].index == Increment(c[|c| - 1].index)
    ensures r[|c|].data == data && r[|c|].timeStamp == now
    ensures r[|c|].HashIsCurrent(e)
  {
    var latest := c[|c| - 1];
    var b := NewBlock(e, now, Some(latest.hash), data);
    HashIgnoresIndex(e, b, Increment(latest.index));
    c + [b.(index := Increment(latest.index))]
  }

  /** One call of `AddBlock`: the time it ran at and the data it was given. */
  datatype Addition = Addition(time: Timestamp, data: string)

  /** The chain a fresh ledger holds after the given additions, in order. */
  function Build(e: HashEngine, genesisTime: Timestamp, adds: seq<Addition>): seq<Block>
  {
    if adds == [] then [Genesis(e, genesisTime)]
    else
      var last := adds[|adds| - 1];
      AppendBlock(e, Build(e, genesisTime, adds[..|adds| - 1]), last.data, last.time)
  }

  /** Chains of at most one block are valid: the genesis is never checked. */
  lemma ShortChainIsValid(e: HashEngine, c: seq<Block>)
    requires |c| <= 1
    ensures ValidChain(e, c)
  {
  }

  /** A block whose previous hash is not its predecessor's hash makes the chain invalid. */
  lemma BrokenLinkIsInvalid(e: HashEngine, c: seq<Block>, i: int)
    requires 1 <= i < |c| && c[i].previousHash != Some(c[i - 1].hash)
    ensures !ValidChain(e, c)
  {
    assert !ValidAt(e, c, i);
  }

  /** Appending keeps a chain valid exactly when the new block is current and linked to the old head. */
  lemma ValidAppendIff(e: HashEngine, c: seq<Block>, b: Block)
    requires |c| > 0
    ensures ValidChain(e, c + [b]) <==>
      ValidChain(e, c) && b.HashIsCurrent(e) && b.previousHash == Some(c[|c| - 1].hash)
  {
    var r := c + [b];
    forall i | 1 <= i < |c| ensures ValidAt(e, r, i) == ValidAt(e, c, i) {
      assert r[i] == c[i] && r[i - 1] == c[i - 1];
    }
    if ValidChain(e, r) {
      assert ValidAt(e, r, |c|);
    }
  }

  /** `AddBlock` preserves validity. */
  lemma AppendPreservesValid(e: HashEngine, c: seq<Block>, data: string, now: Timestamp)
    requires |c| > 0 && ValidChain(e, c)
    ensures ValidChain(e, AppendBlock(e, c, data, now))
  {
    var r := AppendBlock(e, c, data, now);
    assert r == c + [r[|c|]];
    ValidAppendIff(e, c, r[|c|]);
  }

  /** Every chain built by construction and appends is valid, starts at the genesis and grows by one per append. */
  lemma {:induction false} BuiltChainIsValid(e: HashEngine, genesisTime: Timestamp, adds: seq<Addition>)
    ensures |Build(e, genesisTime, adds)| == |adds| + 1
    ensures Build(e, genesisTime, adds)[0] == Genesis(e, genesisTime)
    ensures ValidChain(e, Build(e, genesisTime, adds))
  {
    if adds != [] {
      var prefix := adds[..|adds| - 1];
      BuiltChainIsValid(e, genesisTime, prefix);
      AppendPreservesValid(e, Build(e, genesisTime, prefix), adds[|adds| - 1].data, adds[|adds| - 1].time);
    }
  }

  /** In a built chain, block `k` carries index `k` and the data of the `k`-th addition. */
  lemma {:induction false} BuiltChainIsNumbered(e: HashEngine, genesisTime: Timestamp, adds: seq<Addition>)
    requires |adds| <= MaxInt32 as int
    ensures |Build(e, genesisTime, adds)| == |adds| + 1
    ensures forall k :: 0 <= k < |Build(e, genesisTime, adds)| ==> Build(e, genesisTime, adds)[k].index as int == k
    ensures forall k :: 1 <= k < |Build(e, genesisTime, adds)| ==> Build(e, genesisTime, adds)[k].data == adds[k - 1].data
  {
    if adds != [] {
      var prefix := adds[..|adds| - 1];
      BuiltChainIsNumbered(e, genesisTime, prefix);
      var c := Build(e, genesisTime, prefix);
      var r := Build(e, genesisTime, adds);
      assert r == AppendBlock(e, c, adds[|adds| - 1].data, adds[|adds| - 1].time);
      forall k | 0 <= k < |r| ensures r[k].index as int == k {
        if k < |c| {
          assert r[k] == c[k];
        }
      }
      forall k | 1 <= k < |r| ensures r[k].data == adds[k - 1].data {
        if k < |c| {
          assert r[k] == c[k] && prefix[k - 1] == adds[k - 1];
        }
      }
    }
  }
}
