/**
 * A block of the ledger: its fields, its hash and its constructor.
 *
 * The cryptographic digest (SHA-256 followed by Base64) and the textual
 * rendering of a timestamp are not modelled: a `HashEngine` supplies both,
 * and nothing is assumed about them unless a lemma says so.
 */
module Blocks {
  import opened Wrappers
  import opened AsciiEncoding

  /** An instant in time; only compared and rendered. */
  type Timestamp(==)

  /** The two foreign pieces of the hash: rendering a timestamp as text, and digesting bytes. */
  datatype HashEngine = HashEngine(render: Timestamp -> string, digest: seq<byte> -> string)

  /** Collision freedom of the digest, for the lemmas that need it. */
  ghost predicate DigestInjective(e: HashEngine) {
    forall x, y :: e.digest(x) == e.digest(y) ==> x == y
  }

  /** The source's 32-bit signed `int`. */
  newtype Int32 = x: int | -0x8000_0000 <= x < 0x8000_0000

  const MaxInt32: Int32 := 0x7FFF_FFFF

  /** The ASCII byte of the '-' separator. */
  const Dash: byte := 0x2D

  /** `i + 1` in an unchecked 32-bit context: wraps from the largest value to the smallest. */
  function Increment(i: Int32): (r: Int32)
    ensures (r as int - i as int - 1) % 0x1_0000_0000 == 0
    ensures i < MaxInt32 ==> r as int == i as int + 1
  {
    if i == MaxInt32 then -0x8000_0000 else i + 1
  }

  datatype Block = Block(
    index: Int32,
    timeStamp: Timestamp,
    previousHash: Option<string>,
    hash: string,
    data: string)
  {
    /** The bytes fed to the digest: timestamp, previous hash (null read as empty) and data, joined by '-'. */
    function Preimage(e: HashEngine): (p: seq<byte>)
      ensures p == GetBytes(e.render(timeStamp)) + [Dash] + GetBytes(previousHash.GetOr("")) + [Dash] + GetBytes(data)
    {
      var t, prev := e.render(timeStamp), previousHash.GetOr("");
      GetBytesAppend(t + "-" + prev + "-", data);
      GetBytesAppend(t + "-" + prev, "-");
      GetBytesAppend(t + "-", prev);
      GetBytesAppend(t, "-");
      GetBytes(t + "-" + prev + "-" + data)
    }

    /** A fresh recomputation of the hash; neither the stored `hash` nor the `index` is read. */
    function CalculateHash(e: HashEngine): (h: string)
      ensures h == e.digest(GetBytes(e.render(timeStamp)) + [Dash] + GetBytes(previousHash.GetOr("")) + [Dash] + GetBytes(data))
    {
      e.digest(Preimage(e))
    }

    /** The stored hash agrees with a recomputation. */
    predicate HashIsCurrent(e: HashEngine) {
      hash == CalculateHash(e)
    }
  }

  /** The constructor: index 0 and a hash cached from the other fields. */
  function NewBlock(e: HashEngine, timeStamp: Timestamp, previousHash: Option<string>, data: string): (b: Block)
    ensures b.index == 0
    ensures b.timeStamp == timeStamp && b.previousHash == previousHash && b.data == data
    ensures b.HashIsCurrent(e)
  {
    var b := Block(0, timeStamp, previousHash, "", data);
    b.(hash := b.CalculateHash(e))
  }

  /** The index is not hashed: renumbering a block never changes its hash. */
  lemma HashIgnoresIndex(e: HashEngine, b: Block, k: Int32)
    ensures b.(index := k).CalculateHash(e) == b.CalculateHash(e)
    ensures b.(index := k).HashIsCurrent(e) == b.HashIsCurrent(e)
  {
  }

  /** A null previous hash is hashed exactly like an empty one. */
  lemma NullPreviousHashHashesAsEmpty(e: HashEngine, b: Block)
    ensures b.(previousHash := None).CalculateHash(e) == b.(previousHash := Some("")).CalculateHash(e)
  {
  }

  /**
   * With the timestamp and the hashed previous hash fixed, two blocks have
   * the same preimage exactly when their data encode to the same bytes.
   */
  lemma PreimageDeterminesEncodedData(e: HashEngine, b1: Block, b2: Block)
    requires b1.timeStamp == b2.timeStamp
    requires b1.previousHash.GetOr("") == b2.previousHash.GetOr("")
    ensures b1.Preimage(e) == b2.Preimage(e) <==> GetBytes(b1.data) == GetBytes(b2.data)
  {
    var prefix := e.render(b1.timeStamp) + "-" + b1.previousHash.GetOr("") + "-";
    GetBytesAppend(prefix, b1.data);
    GetBytesAppend(prefix, b2.data);
    var p := GetBytes(prefix);
    if b1.Preimage(e) == b2.Preimage(e) {
      assert (p + GetBytes(b1.data))[|p|..] == GetBytes(b1.data);
      assert (p + GetBytes(b2.data))[|p|..] == GetBytes(b2.data);
    }
  }

  /**
   * The '-' separator is ambiguous: moving a leading '-' of the data to the
   * end of the previous hash leaves the hash unchanged, whatever the digest.
   */
  lemma SeparatorIsAmbiguous(e: HashEngine, b: Block, prev: string, rest: string)
    requires b.previousHash == Some(prev) && b.data == "-" + rest
    ensures b.(previousHash := Some(prev + "-"), data := rest).CalculateHash(e) == b.CalculateHash(e)
  {
    var t := e.render(b.timeStamp);
    assert t + "-" + (prev + "-") + "-" + rest == t + "-" + prev + "-" + ("-" + rest);
  }
}
