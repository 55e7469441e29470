/**
 * What the validity check detects when a stored block is altered in place,
 * and what it cannot detect.
 */
module Tampering {
  import opened Wrappers
  import opened AsciiEncoding
  import opened Blocks
  import opened ChainSpec

  /** Block `i` with its data replaced and its stored hash left as it was. */
  function WithData(c: seq<Block>, i: nat, d: string): (r: seq<Block>)
    requires i < |c|
    ensures |r| == |c| && r[i].data == d && r[i].hash == c[i].hash
  {
    c[i := c[i].(data := d)]
  }

  /** Block `i` with its data replaced and its hash recomputed to match. */
  function WithDataRehashed(e: HashEngine, c: seq<Block>, i: nat, d: string): (r: seq<Block>)
    requires i < |c|
    ensures |r| == |c| && r[i].data == d && r[i].HashIsCurrent(e)
  {
    var t := c[i].(data := d);
    c[i := t.(hash := t.CalculateHash(e))]
  }

  /**
   * Changing the data of a non-genesis block of a valid chain, in a way the
   * ASCII encoding can see, is detected when the digest is collision free.
   */
  lemma DataTamperDetected(e: HashEngine, c: seq<Block>, i: nat, d: string)
    requires DigestInjective(e)
    requires ValidChain(e, c) && 1 <= i < |c|
    requires GetBytes(d) != GetBytes(c[i].data)
    ensures !ValidChain(e, WithData(c, i, d))
  {
    var r := WithData(c, i, d);
    assert ValidAt(e, c, i);
    PreimageDeterminesEncodedData(e, c[i], r[i]);
    assert r[i].Preimage(e) != c[i].Preimage(e);
    assert !ValidAt(e, r, i);
  }

  /**
   * Whatever the digest, changing data to text with the same ASCII bytes
   * (a non-ASCII character for another, or for '?') leaves validity as it was.
   */
  lemma EncodingCollisionUndetected(e: HashEngine, c: seq<Block>, i: nat, d: string)
    requires i < |c|
    requires GetBytes(d) == GetBytes(c[i].data)
    ensures ValidChain(e, WithData(c, i, d)) == ValidChain(e, c)
  {
    var r := WithData(c, i, d);
    PreimageDeterminesEncodedData(e, c[i], r[i]);
    forall k | 1 <= k < |c| ensures ValidAt(e, r, k) == ValidAt(e, c, k) {
    }
  }

  /** An instance: "café" may be replaced by "caf?" in any block without any effect on validity. */
  lemma AccentedDataUndetected(e: HashEngine, c: seq<Block>, i: nat)
    requires i < |c| && c[i].data == "café"
    ensures ValidChain(e, WithData(c, i, "caf?")) == ValidChain(e, c)
  {
    NonAsciiEncodesAsQuestionMark("café", 3);
    assert "café"[3 := '?'] == "caf?";
    EncodingCollisionUndetected(e, c, i, "caf?");
  }

  /** The genesis block is never hash-checked: any genesis with the same stored hash gives the same verdict. */
  lemma GenesisNeverHashChecked(e: HashEngine, c: seq<Block>, g: Block)
    requires |c| > 0 && g.hash == c[0].hash
    ensures ValidChain(e, c[0 := g]) == ValidChain(e, c)
  {
    var r := c[0 := g];
    forall k | 1 <= k < |c| ensures ValidAt(e, r, k) == ValidAt(e, c, k) {
      assert r[k] == c[k] && r[k - 1].hash == c[k - 1].hash;
    }
  }

  /**
   * Re-hashing a tampered block does not help once a successor exists:
   * the successor's link no longer matches, when the digest is collision free.
   */
  lemma RehashBreaksNextLink(e: HashEngine, c: seq<Block>, i: nat, d: string)
    requires DigestInjective(e)
    requires ValidChain(e, c) && i + 1 < |c|
    requires c[i].HashIsCurrent(e)
    requires GetBytes(d) != GetBytes(c[i].data)
    ensures !ValidChain(e, WithDataRehashed(e, c, i, d))
  {
    var r := WithDataRehashed(e, c, i, d);
    PreimageDeterminesEncodedData(e, c[i], c[i].(data := d));
    assert r[i].hash != c[i].hash;
    assert ValidAt(e, c, i + 1);
    assert !ValidAt(e, r, i + 1);
  }

  /** The head block, in contrast, can be rewritten and re-hashed without the check noticing. */
  lemma RehashedHeadUndetected(e: HashEngine, c: seq<Block>, d: string)
    requires ValidChain(e, c) && |c| > 0
    ensures ValidChain(e, WithDataRehashed(e, c, |c| - 1, d))
  {
    var r := WithDataRehashed(e, c, |c| - 1, d);
    forall k | 1 <= k < |r| ensures ValidAt(e, r, k) {
      assert ValidAt(e, c, k);
    }
  }
}
