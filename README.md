# A hash-linked ledger, modelled in Dafny

This project models the core of a small C# blockchain: the `Block` record and the `Blockchain` container from `Program.cs`.

A block stores an index, a timestamp, the previous block's hash, its own hash and a string payload. Its hash is a SHA-256 digest, Base64-encoded, of the ASCII bytes of `"{timestamp}-{previous hash, or empty if null}-{data}"`. The index is not hashed, and there is no nonce. The ledger holds a list of blocks that starts with a genesis block. It has these operations:

- `AddBlock` appends a block linked to the current head and numbers it one past the head.
- `IsValid` walks the list from the second block. It checks that each block's stored hash matches a recomputation and that the block's previous hash equals its predecessor's hash.
- `LoadFromFile` replaces the list with a deserialized one, or resets to genesis when the result is null.

Modules, leaf to root:

- `Wrappers` (`wrappers.dfy`): `Option`, which stands for a nullable string.
- `AsciiEncoding` (`ascii_encoding.dfy`): the ASCII encoding applied before hashing. A character outside the 7-bit range becomes `?`.
- `Blocks` (`block.dfy`): `Block`, its hash preimage, `CalculateHash` and the constructor. The digest and the timestamp's text form come from a `HashEngine` value. The 32-bit index and its wrap-around are modelled too.
- `ChainSpec` (`chain_spec.dfy`): validity of a block sequence, the effect of one append, and the chains that construction plus appends produce.
- `Tampering` (`tampering.dfy`): what the validity check does and does not detect when a stored block is altered.
- `Chains` (`blockchain.dfy`): the `Blockchain` class. Its `chain` field is reassigned and appended to in place. The constructor, `AddGenesisBlock`, `AddBlock`, `IsValid` and `LoadFromFile` are proved against the functions of `ChainSpec`.

The design documentation of this ledger speaks of mining, a nonce, difficulty control, and hashing the index and nonce. `Program.cs` has none of these, so the model follows the code. That documentation also says that loading an empty sequence resets the ledger. The code resets only on a null result and keeps an empty list, so the model follows the code here too.

## Model

| member | source | states |
|---|---|---|
| `AsciiEncoding.GetBytes` | Program.cs:77 | encoding yields one byte per character; each byte is the character's code if it is 7-bit, otherwise `?` |
| `AsciiEncoding.GetBytesAppend` | Program.cs:77 | encoding a concatenation is the concatenation of the encodings |
| `AsciiEncoding.AsciiTextIsDetermined` | Program.cs:77 | on 7-bit text, equal encodings mean equal strings |
| `AsciiEncoding.NonAsciiEncodesAsQuestionMark` | Program.cs:77 | replacing a non-ASCII character by `?` changes the string but not its encoding |
| `Blocks.Increment` | Program.cs:117 | `Index + 1` is congruent to index+1 modulo 2^32, and equals it below `int.MaxValue` |
| `Blocks.Block.Preimage` | Program.cs:77 | the hashed bytes are the ASCII bytes of the timestamp's text, a `-` byte, the previous hash (empty if null), a `-` byte, and the data; the index and stored hash are not included |
| `Blocks.Block.CalculateHash` | Program.cs:74-80 | the digest of those bytes; the stored hash and the index are not read |
| `Blocks.NewBlock` | Program.cs:65-72 | a new block has index 0, the given timestamp, previous hash and data, and a hash equal to its recomputation |
| `Blocks.HashIgnoresIndex` | Program.cs:74-80 | changing the index never changes the hash or whether the stored hash is current |
| `Blocks.NullPreviousHashHashesAsEmpty` | Program.cs:77 | a null previous hash hashes exactly like an empty one |
| `Blocks.PreimageDeterminesEncodedData` | Program.cs:74-80 | with the timestamp and hashed previous hash fixed, two preimages are equal iff the data encode to the same bytes |
| `Blocks.SeparatorIsAmbiguous` | Program.cs:77 | moving a leading `-` of the data onto the end of the previous hash leaves the hash unchanged, for any digest |
| `ChainSpec.Genesis` | Program.cs:98-101 | the genesis block has index 0, a null previous hash, data `{}`, the given timestamp, and a current hash |
| `ChainSpec.AppendBlock` | Program.cs:113-119 | appending adds exactly one block and leaves the prefix unchanged; the new block links to the old head's hash, has index old head + 1 (wrapping), has the given data and time, and has a current hash |
| `ChainSpec.ShortChainIsValid` | Program.cs:123 | a chain of zero or one blocks is valid |
| `ChainSpec.BrokenLinkIsInvalid` | Program.cs:133-136 | any block after the genesis whose previous hash differs from its predecessor's hash makes the chain invalid |
| `ChainSpec.ValidAppendIff` | Program.cs:113-139 | `c + [b]` is valid iff `c` is valid, `b`'s hash is current, and `b` links to `c`'s head |
| `ChainSpec.AppendPreservesValid` | Program.cs:113-139 | appending to a valid chain yields a valid chain |
| `ChainSpec.BuiltChainIsValid` | Program.cs:87-139 | every chain from the constructor followed by any appends is valid, starts with the genesis block, and has one block per append plus the genesis |
| `ChainSpec.BuiltChainIsNumbered` | Program.cs:113-119 | in such a chain (at most 2^31 - 1 appends, before the 32-bit index would wrap), block k has index k and carries the k-th appended data |
| `Tampering.DataTamperDetected` | Program.cs:121-131 | with a collision-free digest, a change to a non-genesis block's data that changes its ASCII bytes makes a valid chain invalid |
| `Tampering.EncodingCollisionUndetected` | Program.cs:74-80 | for any digest, replacing a block's data by text with the same ASCII bytes leaves validity unchanged |
| `Tampering.AccentedDataUndetected` | Program.cs:77 | concretely, `café` can be replaced by `caf?` in any block without changing validity |
| `Tampering.GenesisNeverHashChecked` | Program.cs:123 | any replacement genesis with the same stored hash gives the same validity verdict |
| `Tampering.RehashBreaksNextLink` | Program.cs:128-136 | with a collision-free digest, changing a non-head block's data and recomputing its hash breaks the next block's link |
| `Tampering.RehashedHeadUndetected` | Program.cs:121-139 | changing the head block's data and recomputing its hash keeps a valid chain valid |
| `Chains.Blockchain.constructor` | Program.cs:87-91 | a new ledger holds exactly the genesis block, which is the chain built from no appends, and is valid |
| `Chains.Blockchain.InitializeChain` | Program.cs:93-96 | the list becomes empty |
| `Chains.Blockchain.AddGenesisBlock` | Program.cs:103-106 | a genesis block is appended to whatever the list holds |
| `Chains.Blockchain.GetLatestBlock` | Program.cs:108-111 | returns the last block; an empty list is outside its precondition |
| `Chains.Blockchain.AddBlock` | Program.cs:113-119 | the new list is `AppendBlock` of the old one: it grows by one, the old blocks are unchanged, the new head links to and is numbered after the old head, and validity is preserved |
| `Chains.Blockchain.IsValid` | Program.cs:121-139 | returns true iff every block from the second on has a current hash and its predecessor's hash as previous hash |
| `Chains.Blockchain.LoadFromFile` | Program.cs:148-163 | a missing file leaves the list unchanged; a null result resets to a genesis-only list; any other list, including an empty one, is kept as read |
| `Chains.AddAndValidate` | Program.cs:23-37 | adding `hello` and `world` to a new ledger gives three blocks, a head numbered 2 with data `world`, and a passing validation |

## Left out

- The command loop and console output (Program.cs:5-54) are I/O and string dispatch. Only the add-then-validate session is modelled, as `Chains.AddAndValidate`.
- SHA-256 and Base64 (Program.cs:76-79) are foreign library calls. They are the `digest` of a `HashEngine`, and nothing is assumed about it. The tamper-detection lemmas that need collision freedom take it as a hypothesis, `DigestInjective`.
- The timestamp's text form (`DateTime.ToString`, culture dependent) is the `render` function of a `HashEngine`. The timestamp itself is an opaque type.
- `DateTime.Now` (Program.cs:100, 116) is the `now` parameter of the methods that read the clock.
- `SaveToFile` (Program.cs:142-146) and the JSON serializer are not modelled. For `LoadFromFile`, whether the file exists and what the serializer returns are parameters. A malformed snapshot throws from the serializer, which is not modelled. The save/load round trip depends on the serializer and is not modelled either.
- Blocks read from a snapshot with a null `Hash` or `Data` cannot be represented, because both fields are non-null strings in the model.
- `Chains.Blockchain.LoadFromFile`: a snapshot list that contains null elements (for example `[{...}, null]`) cannot be represented, because the loaded list is a sequence of block values. The source keeps such a list. The `NullReferenceException` that `IsValid` (Program.cs:128) or `AddBlock` (Program.cs:116, when the head is null) then throws is not modelled.
- `Block` is a reference type with public setters in the source. The model treats blocks as values. Altering a stored block in place is modelled as replacing that element of the list, and aliasing between blocks is not captured.
- `Chains.Blockchain.GetLatestBlock`, `Chains.Blockchain.AddBlock`: the out-of-range exception that an empty list raises (reachable after loading an empty list) is modelled as a precondition, not as an error result, because nothing in the source catches it.
- Characters are Unicode scalar values. A character outside the Basic Multilingual Plane is one character here, but a surrogate pair in .NET. The encoder turns either into a single `?`, so the encodings agree.
- Mining, nonce search and difficulty control do not exist in `Program.cs` and are not modelled.
