# Verified model of the mining pool

Dafny proofs about the parts of the pool server where a mistake would cost money or shares.
`dafny verify dfyconfig.toml` checks everything; no file needs another tool.

| module | models | main results |
|---|---|---|
| `Merkle` | merkle branch, fold, full root | `FoldBranchIsRoot`, `BranchLength` |
| `BitXor`, `Digits`, `Polymod`, `Groups`, `Words`, `TwoConstants`, `ConvertBits`, `Alphabets`, `Base58`, `Bech32`, `Address`, `Texts`, `Vectors` | payout addresses | `DistinctKeysDistinctScripts`, `OneWrongSymbolRejected`, `ConvertBits` |
| `Wire`, `Transaction`, `Coinbase`, `Mining`, `Formats` | coinbase, notify, header, block, share validation | `ShareTheorem`, `HonestMiner`, `CoinbaseParsesBack` |
| `Spool`, `ShareWriter`, `ShareDelivery` | durable share path | `NothingLost`, `NeverTwice`, `DroppedExactly`, `HealthyDelivers`, `PlainCopyIsFirst`, `ShutdownLosesOverRun` |
| `Rounding`, `Rewards`, `WorkBackward`, `Pplns`, `Calculators` | splitting a reward, PPLNS window | `PaysExactly`, `MoreWorkNeverEarnsLess`, `CountsTheSameRows`, `PaysTheWindow` |
| `Ledger`, `Accounts`, `Payouts`, `Amounts`, `Confirm`, `Pool` | balances, payouts, block confirmation | `MoneyIsConserved`, `CreditBlockPays`, `InterruptedExactly`, `FinalExactly`, `TurnsNeverOverwrite`, `MoneyIsEarned` |
| `Jobs`, `MinuteRing` | job memory, duplicate shares, hashrate ring | `PassesExactly`, `NoShareTwice`, `Ring.Sum` |

How the model is built:

- Functions that specify a method are tied down a second time: `Formats`, `Texts`, `Calculators`,
  `Accounts`, `ShareDelivery` and `Vectors` say in literal bytes, characters, numbers and published
  addresses what they compute.
- Code that changes state step by step is a method or a class; each method's contract gives the
  whole new state through a function, and the lemmas are about that function or about runs of it.
- Concurrent parts are state machines. A run is any sequence of enabled events; outcomes of
  inserts, file writes, transactions, wallet calls and daemon reads are part of the event, so every
  statement about runs holds for every environment. A database transaction is one step that
  commits, rolls back, or commits and still reports an error.
- SHA256d is a parameter: any function from byte strings to 32-byte strings. The proof-of-work
  comparison is a parameter too: any predicate of the header.
- Machine integers are unbounded except where the code relies on or suffers from their width: the
  64-bit accumulator of `convertBits`, the height decoder, 32-bit header words.
- Floats are reals. A rounding function is a parameter wherever rounding matters: `Rounds(rd, u)`
  bounds its relative error, `Monotone(rd)` says it respects order. The walk of `WorkBackward` takes
  its addition as a parameter and needs no property of it.

Where the code does not do what one would expect, the model follows the code, and a lemma gives the
input and the exact condition:

- A share recorded fifteen or more minutes late takes over a newer bucket of the hashrate ring
  (`LateAdditionExact`, `LateExample`). The code stamps a share with its own clock
  (`internal/stats/stats.go:110`), so this needs a clock set back or a wait of that length for the
  collector's lock.
- Shutdown (`sharewriter.go:277-297`) sends retained shares through the plain COPY. Over any run
  that is free of duplicates if and only if no share still retained was in a write that was
  committed but reported as failed (`FinalCopyOverRun`). With the unique index on share ids
  (`store.go:148`) such a duplicate makes the COPY fail, and the rest of the final batch is lost
  without being counted (`ShutdownLosesOverRun`, `FinalCopyExample`).
- A spool whose file was replaced but could not be reopened keeps its old size
  (`DrainKeepsSizeExact`, `StaleSizeExample`).
- Shares that tie with the last share of a full page are skipped by the PPLNS walk, and the rows it
  counts differ if and only if that happens among them (`CountsTheSameRows`, `TieIsSkipped`).
- A submit takes its lock twice; a share passes twice if and only if one of its checks came while
  the job was remembered and one after its eviction, and never three times (`PassesExactly`,
  `GapPassesTwice`).
- The reward split sums to the amount only if rounding is fine enough, although its comment says it
  always does; for one paid miner that bound is exact, and binary64 overpays at 2^53 + 3
  (`DistributeSum`, `FineEnoughExactly`, `BinaryOverpays`).
- A wallet error is taken to mean that nothing was sent; an error after a broadcast, such as the
  empty transaction id (`internal/payouts/payouts.go:228-230`), pays and refunds (`BothOnlyWhenLost`,
  `LostIsBoth`).
- Two reward processors on one pool can orphan a credited block (`RaceOrphansCredited`). With any
  number of them settled statuses hold if and only if no stored check meets a settled block under a
  chain view that contradicts it (`FinalExactly`). That is so on every schedule in which sweeps over
  unconfirmed blocks take turns, one processor's in particular (`TurnsNeverOverwrite`), and then
  credits are earned (`TurnsEarnCredits`); double crediting is impossible in any case
  (`CreditedOnce`).

## Model

| member | source | states |
|---|---|---|
| `Merkle.FoldBranchIsRoot` | internal/coins/bitcoinbase/merkle.go:40-102 | For every coinbase hash and every list of transaction hashes, folding the coinbase hash through the branch gives the root of the whole tree, odd levels included |
| `Merkle.BranchLength` | internal/coins/bitcoinbase/merkle.go:48-66 | The branch of n transactions has exactly ceil(log2(n + 1)) steps |
| `Merkle.MerkleBranch` | internal/coins/bitcoinbase/merkle.go:48-66 | The level-by-level loop with an unknown first slot returns the branch that the two lemmas above are about |
| `Merkle.FoldBranch` | internal/coins/bitcoinbase/merkle.go:71-77 | The loop computes the fold of a coinbase hash through any steps |
| `Merkle.MerkleRoot` | internal/coins/bitcoinbase/merkle.go:83-102 | No root for an empty list; otherwise the root of the full tree, which is also the fold of the first hash through the branch of the others |
| `Formats.LevelUpAt` | internal/coins/bitcoinbase/merkle.go:83-102 | Place by place, a level up hashes neighbours together, and a last element without a neighbour with itself |
| `Formats.LastTwice` | internal/coins/bitcoinbase/merkle.go:83-102 | An odd list of more than one has the same root as that list with its last hash twice |
| `Polymod.StepInjective` | internal/coins/bitcoinbase/address.go:161-174 | One polymod turn never merges two 30-bit states: the dropped top bits are recoverable from what they select |
| `Polymod.FoldInjective` | internal/coins/bitcoinbase/address.go:161-174 | Feeding the same symbols keeps different states different, for any number of symbols |
| `Polymod.OneSymbolMatters` | internal/coins/bitcoinbase/address.go:161-174 | Changing one symbol anywhere in a list of any length changes the final state |
| `Polymod.ChecksumUnique` | internal/coins/bitcoinbase/address.go:161-174 | From any state at most one choice of six symbols reaches a given constant |
| `Polymod.ChecksumAccepted` | internal/coins/bitcoinbase/address.go:207-211 | The checksum of section "Bech32" of BIP 173 reaches the constant from every state |
| `Polymod.ChecksumAfter` | internal/coins/bitcoinbase/address.go:161-211 | Behind any prefix and data exactly that checksum reaches the constant |
| `Polymod.AddSelected` | internal/coins/bitcoinbase/address.go:166-171 | The inner loop adds, in the exclusive-or sense, the generators the bits of the dropped part select |
| `Polymod.Compute` | internal/coins/bitcoinbase/address.go:161-174 | The two nested loops compute the fold from state 1; the state stays below 2^30 |
| `TwoConstants.FirstSymbolApart` | internal/coins/bitcoinbase/address.go:161-174 | Changing the symbol in front of the last 38 or 58, where a version 0 address has its version, never changes the checksum by the difference of the two constants |
| `TwoConstants.TurnsAre` | internal/coins/bitcoinbase/address.go:161-174 | The turns on zeros that the solver computes on 5-bit groups are the polymod turns on numbers |
| `ConvertBits.ConvertBits` | internal/coins/bitcoinbase/address.go:214-237 | The loop over a 64-bit accumulator that is never masked returns what regrouping the unbounded big number returns, errors included, for inputs of any length and any group widths from 1 to 8 |
| `ConvertBits.Emit` | internal/coins/bitcoinbase/address.go:222-226 | The inner loop emits exactly the complete groups of the big number read so far |
| `ConvertBits.RoundTrip` | internal/coins/bitcoinbase/address.go:214-237 | 8 to 5 bits padded, then 5 to 8 unpadded, is the identity on every byte string |
| `ConvertBits.UnpadThenPad` | internal/coins/bitcoinbase/address.go:214-237 | 5-bit groups accepted without padding are exactly what their bytes encode to with padding |
| `ConvertBits.LastGroupZero` | internal/coins/bitcoinbase/address.go:228-235 | The test on the left-over bits accepts exactly zero padding |
| `Base58.DecodedTextIsEncoding` | internal/coins/bitcoinbase/address.go:90-119 | An accepted base58check text is the encoding of its version and payload, leading ones included, so no two texts decode alike |
| `Base58.EncodingDecodes` | internal/coins/bitcoinbase/address.go:90-119 | Every version and payload has an accepted text that decodes to them |
| `Base58.NumberOf` | internal/coins/bitcoinbase/address.go:91-100 | The accumulating loop returns the number the text stands for, and fails exactly on a character outside the alphabet |
| `Base58.DecodesExactly` | internal/coins/bitcoinbase/address.go:90-119 | A text decodes to a version and payload if and only if it is their encoding |
| `Base58.Base58CheckDecode` | internal/coins/bitcoinbase/address.go:90-119 | Number, leading ones, length and checksum tests compute the decoding the three lemmas above are about |
| `Texts.Base58Alphabet` | internal/coins/bitcoinbase/address.go:77-88 | The alphabet is all digits and ASCII letters but 0, I, O and l, in the order of their codes |
| `Texts.TextBytesMean` | internal/coins/bitcoinbase/address.go:90-111 | The bytes of a text are the number its characters write in base 58, behind one zero byte for each leading 1 |
| `Texts.CheckedMeans` | internal/coins/bitcoinbase/address.go:112-119 | A text is accepted with a version and payload exactly when its bytes are these and the first four bytes of their hash |
| `Bech32.ExpandHrp` | internal/coins/bitcoinbase/address.go:176-186 | The loops produce high bits, a zero, low bits |
| `Bech32.Bech32Decode` | internal/coins/bitcoinbase/address.go:190-212 | Splits at the last separator, compares the prefix, reads the symbols, and recognises the two constants |
| `Bech32.SegwitToScript` | internal/coins/bitcoinbase/address.go:239-277 | All version, length and checksum-kind checks, and the script; equal to the function the lemmas below are about |
| `Bech32.OneChecksum` | internal/coins/bitcoinbase/address.go:200-211 | For a given prefix, data and constant exactly one six-symbol checksum is accepted |
| `Bech32.EncodingAccepted` | internal/coins/bitcoinbase/address.go:239-277 | The reference encoding of every valid version and program is accepted and yields its script (`EveryScript` says which scripts those are in numbers) |
| `Bech32.AcceptedIsEncoding` | internal/coins/bitcoinbase/address.go:239-277 | Every accepted text is the reference encoding of some valid version and program |
| `Bech32.SegwitInjective` | internal/coins/bitcoinbase/address.go:239-277 | Different accepted texts have different scripts |
| `Bech32.ChecksumConstants` | internal/coins/bitcoinbase/address.go:261-267 | An accepted text whose version symbol is q meets the checksum constant 1, every other one 0x2bc830a3 |
| `Bech32.ScriptShape` | internal/coins/bitcoinbase/address.go:252-277 | An accepted script is opcode 0 with 20 or 32 bytes, or one of the opcodes 0x51 to 0x60 with 2 to 40, behind their number |
| `Bech32.EveryScript` | internal/coins/bitcoinbase/address.go:252-277 | And each script of that shape has an accepted text |
| `Vectors.PublishedVersionZero` | scripts/smoke/miner.py:49-50 | The version 0 address of the standards, which the smoke test mines to, is accepted with its published script |
| `Vectors.PublishedVersionOne` | internal/coins/bitcoinbase/address.go:239-277 | So is the version 1 address of BIP 350 |
| `Bech32.OneWrongSymbolRejected` | internal/coins/bitcoinbase/address.go:207-263 | Replacing any one data or checksum symbol by another, the version symbol included, makes an accepted address rejected, although two constants are recognised |
| `Address.DistinctKeysDistinctScripts` | internal/coins/bitcoinlike/adapter.go:339-348 | Addresses with equal scripts have equal payout keys, over base58 and segwit together |
| `Address.NormalizedScript` | internal/coins/bitcoinlike/adapter.go:339-348 | Normalising keeps the script, and a payout key is its own normal form |
| `Address.Base58Injective` | internal/coins/bitcoinbase/address.go:121-147 | Two base58 addresses with the same script are the same text |
| `Address.Base58ToScript` | internal/coins/bitcoinbase/address.go:121-147 | Payload length and version checks of the two address kinds |
| `Texts.Base58ScriptMeans` | internal/coins/bitcoinbase/address.go:121-147 | Exactly which texts have which script, opcode by opcode, for the two versions |
| `Texts.WhichKind` | internal/coins/bitcoinbase/address.go:63-75 | A text that begins with prefix and 1 in either case is read in lower case as segwit, every other one as base58 as it stands, and its normal form is what is read |
| `Texts.TrimMeans` | internal/coins/bitcoinbase/address.go:63-68 | What trimming takes away is white space at both ends, and nothing is left of it there |
| `Address.AddressToScript` | internal/coins/bitcoinbase/address.go:63-75 | Dispatch on the lower-cased prefix; refuses the empty address |
| `Address.NormalizeAddress` | internal/coins/bitcoinlike/adapter.go:339-348 | Trims, lower-cases segwit texts only, and refuses what has no script |
| `Wire.ReverseBytes` | internal/coins/bitcoinbase/merkle.go:18-24 | The copy loop reverses; the input is unchanged |
| `Wire.VarIntRoundTrip` | internal/coins/bitcoinbase/coinbase.go:182-199 | Every 64-bit compact size is read back from its four forms, whatever follows |
| `Wire.LittleRoundTrip` | internal/coins/bitcoinbase/coinbase.go:170-180 | Little-endian fields are read back |
| `Wire.BigRoundTrip` | internal/coins/bitcoinbase/block.go:57-66 | Big-endian words are read back |
| `Wire.HexRoundTrip` | internal/coins/bitcoinbase/notify.go:39-111 | Hexadecimal text decodes to the bytes it encodes |
| `Formats.LittleForms` | internal/coins/bitcoinbase/coinbase.go:170-180 | Little-endian words, byte by byte |
| `Formats.FourBytes` | internal/coins/bitcoinbase/block.go:57-66 | Four bytes as a number in either order |
| `Formats.HexForms` | internal/coins/bitcoinbase/notify.go:39-111 | Hexadecimal digits of either case, written in lower case, high half first |
| `Formats.CompactForms` | internal/coins/bitcoinbase/coinbase.go:182-199 | The four forms of a compact size, with their markers |
| `Transaction.LegacyParses` | internal/coins/bitcoinbase/coinbase.go:50-113 | A serialised transaction without witness parses back to itself, consuming all bytes |
| `Transaction.WithWitnessParses` | internal/coins/bitcoinbase/block.go:110-122 | So does one with marker, flag and witness stack |
| `Formats.LegacyLayout` | internal/coins/bitcoinbase/coinbase.go:76-112 | The bytes of a transaction, field by field, as one concatenation |
| `Formats.WitnessLayout` | internal/coins/bitcoinbase/block.go:110-122 | And those of its witness form |
| `Coinbase.EncodeHeightBIP34` | internal/coins/bitcoinbase/coinbase.go:132-151 | The loop builds the minimal little-endian push of a height (section "Specification" of BIP 34) |
| `Coinbase.DecodeHeightBIP34` | internal/coins/bitcoinbase/coinbase.go:155-168 | The shifting int64 loop reads what the push encodes, wrapping at 64 bits, with the same refusals |
| `Coinbase.HeightRoundTrip` | internal/coins/bitcoinbase/coinbase.go:132-168 | Any positive int64 height is read back from its push, whatever follows |
| `Formats.PushIsMinimal` | internal/coins/bitcoinbase/coinbase.go:132-151 | The push is its length and the shortest little-endian bytes of the height whose top bit is clear |
| `Coinbase.BuildCoinbase` | internal/coins/bitcoinbase/coinbase.go:50-113 | Succeeds exactly on buildable specs, and the halves around any extranonces of the right width are the serialised coinbase transaction |
| `Formats.CoinbaseMeans` | internal/coins/bitcoinbase/coinbase.go:76-112 | Every field of the transaction built from a spec, version 2 by default |
| `Coinbase.BuildFront` | internal/coins/bitcoinbase/coinbase.go:76-84 | The bytes appended before the extranonces |
| `Coinbase.BuildBack` | internal/coins/bitcoinbase/coinbase.go:87-112 | The bytes appended after the extranonces |
| `Coinbase.AppendOutputs` | internal/coins/bitcoinbase/coinbase.go:91-110 | The output loop appends the serialised outputs and the lock time |
| `Coinbase.Assemble` | internal/coins/bitcoinbase/coinbase.go:117-128 | Joins the halves exactly when the extranonces have the announced total width |
| `Coinbase.CoinbaseParsesBack` | internal/coins/bitcoinbase/coinbase.go:50-128 | The assembled coinbase parses back, consuming all bytes, to the given height, tag, extranonces, value and output scripts |
| `Coinbase.WitnessifyCoinbase` | internal/coins/bitcoinbase/block.go:110-122 | Succeeds exactly on inputs of the minimum length, inserts marker, flag and the reserved value, and removing them (section "Transaction ID" of BIP 141) returns the original bytes |
| `Coinbase.WitnessifiedParses` | internal/coins/bitcoinbase/block.go:110-122 | The result parses as the same transaction with one 32-byte zero witness item |
| `Mining.HashLEFromDisplayHex` | internal/coins/bitcoinbase/merkle.go:28-37 | A 64-digit hash text becomes its reversed bytes; everything else is refused |
| `Mining.PrevHashToStratum` | internal/coins/bitcoinbase/target.go:59-72 | The loop writes the 4-byte words in reverse order |
| `Mining.StratumPrevHashToLE` | internal/coins/bitcoinbase/target.go:77-93 | The loop swaps the bytes of every 4-byte word |
| `Mining.SwapAfterReverse` | internal/coins/bitcoinbase/target.go:59-93 | The two conversions together are the full byte reversal headers use |
| `Mining.NewJob` | internal/coins/bitcoinbase/notify.go:39-90 | The job carries its template's fields, the branch of its transactions and the coinbase of its spec |
| `Mining.DecodeIds` | internal/coins/bitcoinbase/notify.go:45-54 | Every transaction id, or its hash when the id is missing, in header order; fails exactly when one is malformed |
| `Mining.EncodeSteps` | internal/coins/bitcoinbase/notify.go:56-59 | The branch steps as hexadecimal texts |
| `Mining.NotifyDecodes` | internal/coins/bitcoinbase/notify.go:95-111 | The notify parameters, the version text included, decode to what the job remembers |
| `Formats.NotifyMeans` | internal/coins/bitcoinbase/notify.go:95-111 | Every text of the notify parameters, version and time as big-endian words included |
| `Formats.HashesAre` | internal/coins/bitcoinbase/notify.go:45-54 | The hashes under the root are the reversed ids, or the reversed hashes where an id is missing |
| `Mining.HeadersAgree` | scripts/smoke/miner.py:28-38 | The header a miner concatenates from the notify parameters in its own order, its version read from their version text and rolled by its own bits, is, byte for byte, the header the pool rebuilds from the job and the submitted texts |
| `Mining.HonestMiner` | scripts/smoke/miner.py:28-56 | Whatever 32-bit time, nonce and version bits a miner chooses, the texts it submits decode, and the pool rebuilds from them the header the miner hashed |
| `Mining.MerkleFieldIsRoot` | internal/coins/bitcoinbase/block.go:72-104 | The merkle field is the full root over the coinbase and the template's transactions |
| `Mining.RolledOnlyInMask` | internal/coins/bitcoinbase/block.go:80-87 | Bit by bit, a rolled version is the template's outside the mask and the miner's inside it |
| `Mining.RolledWord` | internal/coins/bitcoinbase/block.go:80-87 | A rolled version of 32-bit words is a 32-bit word |
| `Mining.HeaderFields` | internal/coins/bitcoinbase/block.go:89-101 | Every field stands at its place, version 0, previous hash 4, root 36, time 68, bits 72, nonce 76, and reads back from there |
| `Mining.ParseSubmitHex` | internal/coins/bitcoinbase/block.go:25-66 | Decodes the five submitted texts and refuses exactly the malformed ones |
| `Formats.SubmitMeans` | internal/coins/bitcoinbase/block.go:25-66 | Exactly which texts decode to which fields |
| `Mining.BuildHeader` | internal/coins/bitcoinbase/block.go:72-104 | The 80 bytes: version, previous hash, root, time, bits and nonce in header order, each field at its literal place |
| `Mining.AssembleBlock` | internal/coins/bitcoinbase/block.go:127-151 | Header, transaction count, coinbase in its in-block form, then every template transaction in order |
| `Formats.BlockLayout` | internal/coins/bitcoinbase/block.go:127-151 | The bytes of a block, with the number of its transactions readable behind the header |
| `Mining.AppendTransactions` | internal/coins/bitcoinbase/block.go:143-149 | The loop appends every transaction in order, and fails exactly when one is not hexadecimal |
| `Mining.Reconstruct` | internal/coins/bitcoinlike/adapter.go:248-283 | Succeeds exactly on submits that pass every guard; the header's merkle field folds the rebuilt coinbase |
| `Formats.AdmissibleMeans` | internal/coins/bitcoinlike/adapter.go:248-270 | The guards in numbers: widths, earliest time, two hours past the template's, and no version bit outside a mask that is not zero, bit by bit |
| `Mining.Rebuild` | internal/coins/bitcoinlike/adapter.go:272-282 | Coinbase, root and header from the remembered job and the decoded fields |
| `Mining.ValidateShare` | internal/coins/bitcoinlike/adapter.go:243-311 | A result exactly for submits that pass every guard and, when the header is a candidate, for jobs that can be assembled; it is judged on the rebuilt header, and a candidate's block is that header with that coinbase and the template's transactions |
| `Mining.ShareTheorem` | internal/coins/bitcoinlike/adapter.go:243-283 | For an admissible share of a derived job: the header is the one the miner builds from the notify parameters and its own version bits; the template's previous hash and bits and the miner's time and nonce read back from their places in it; its version bytes are the template's outside the mask and the miner's inside it; its root covers the block's coinbase and template transactions; and the coinbase parses back to the spec's height, tag and outputs and the miner's extranonces |
| `Mining.BuildMiningJob` | internal/coins/bitcoinlike/adapter.go:184-222 | Succeeds exactly on templates whose commitment, hashes and bits decode and whose spec is buildable, and then returns a job derived from the template and the spec made of it |
| `Mining.ShareOfTemplate` | internal/coins/bitcoinlike/adapter.go:184-222 | The coinbase of a share of such a job parses back to version 2 and the template's height, pays the template's value to the pool's script, and carries the template's witness commitment |
| `Mining.BlockCoinbaseParses` | internal/coins/bitcoinbase/block.go:127-141 | The coinbase as it stands in a derived job's block parses as the coinbase transaction, with the reserved witness item when the job commits to witnesses, and stripped of its witness it is the coinbase the header covers |
| `Mining.DerivedAssembles` | internal/coins/bitcoinbase/block.go:127-151 | A candidate of a derived job becomes a block if and only if the template's transactions are hexadecimal |
| `Spool.RunKeepsInv` | internal/spool/spool.go:61-254 | Over any run of appends, drains, callback and rewrite failures and reopens: the file is a suffix of the written records, only confirmed ones left it, and the tracked size never understates the file nor exceeds the bound |
| `Spool.AcknowledgedKept` | internal/spool/spool.go:61-78 | An acknowledged record is in the file until the callback confirmed it |
| `Spool.DrainKeepsSizeExact` | internal/spool/spool.go:212-254 | After a drain the tracked size is the file size if and only if the new file could be reopened or no record had been confirmed |
| `Spool.StaleSizeExample` | internal/spool/spool.go:245-251 | A failed reopen leaves an empty file with a positive tracked size, and a following append fails |
| `Spool.DrainMeans` | internal/spool/spool.go:154-254 | A drain confirms whole batches until a call fails; exactly those leave the file when it is replaced |
| `Spool.SpoolFile.constructor` | internal/spool/spool.go:38-55 | Opening takes the size from the file |
| `Spool.SpoolFile.AppendRecord` | internal/spool/spool.go:61-78 | The bound is checked before the write; a failed sync leaves the line in the file but is reported as an error |
| `Spool.SpoolFile.Rewrite` | internal/spool/spool.go:212-254 | The replacement holds exactly the given records and their summed size |
| `Spool.SpoolFile.DrainBatch` | internal/spool/spool.go:154-209 | Offers records in append order in batches, stops at the first failure, and removes exactly the confirmed prefix; reports no error exactly when the spool was empty, or it could be read, every batch was confirmed and the file was replaced |
| `Spool.SpoolFile.DrainEach` | internal/spool/spool.go:91-142 | The record-by-record drain is the drain with batches of one: the same records offered and removed, and an error in the same cases |
| `ShareWriter.RunKeepsInv` | internal/storage/postgres/sharewriter.go:170-335 | In every interleaving of submits, flushes, failing and committed-but-reported-failed inserts, overflow, spills and log drains the invariant holds: places disjoint, database and drop counter without repetition, retained list and queue bounded |
| `ShareWriter.NothingLost` | internal/storage/postgres/sharewriter.go:170-193 | Every share handed to Enqueue is in the queue, batch, write in flight, retained list, log, database or the counted drops |
| `ShareWriter.NeverTwice` | internal/storage/postgres/sharewriter.go:249-273 | No run puts a share in the database twice |
| `ShareDelivery.DroppedExactly` | internal/storage/postgres/sharewriter.go:183-193 | Over any run a share is dropped if and only if memory had no room for it in some step, at a full queue or a spill, and there was no log or the log did not acknowledge it |
| `ShareDelivery.LogTakes` | internal/storage/postgres/sharewriter.go:183-193 | A share memory has no room for is at the end of the log after an acknowledged append, with the drops unchanged; there and dropped when only the sync failed; dropped otherwise |
| `ShareDelivery.LogOtherwise` | internal/storage/postgres/sharewal.go:60-77 | No other step touches the drops, and only the end of a drain takes shares out of the log, the confirmed ones from the front |
| `ShareDelivery.HealthyDelivers` | internal/storage/postgres/sharewriter.go:230-335 | From every state of every run of a process with a log, steps that succeed lead to one where nothing waits any more and every accepted share that was not dropped before is in the database, with no further drop |
| `ShareDelivery.NewestStay` | internal/storage/postgres/sharewriter.go:321-335 | After a failed write the newest 250000 shares stay and the oldest spill |
| `ShareDelivery.ReplayMeans` | internal/storage/postgres/sharewal.go:60-77 | A drain step offers the next thousand lines at most, counts them only on reported success, and has them in the database unless it failed |
| `ShareDelivery.WritesMean` | internal/storage/postgres/sharewriter.go:249-273 | What a write puts into the database, by outcome and kind of insert |
| `ShareWriter.PlainCopyIsFirst` | internal/storage/postgres/sharewriter.go:249-258 | A plain COPY never carries a share that any insert was attempted on before, nor one already in the database |
| `ShareWriter.StepKeepsInv` | internal/storage/postgres/sharewriter.go:230-335 | Each single step keeps the invariant |
| `ShareWriter.DedupAdds` | internal/storage/postgres/sharewriter.go:375-404 | The staged insert adds what is missing, keeps what is there, and never duplicates |
| `ShareWriter.CrashRestarts` | internal/storage/postgres/sharewal.go:84-108 | A crash loses at most what was in memory, and the next process starts from a log and database that satisfy the invariant |
| `ShareWriter.FinalCopyExact` | internal/storage/postgres/sharewriter.go:277-297 | The shutdown COPY is free of duplicates if and only if no retained share is in the database |
| `ShareWriter.InDbWhenMisreported` | internal/storage/postgres/sharewriter.go:259-271 | A share still in memory after a run is in the database if and only if it was there before or a write that carried it was committed but reported as failed |
| `ShareWriter.FinalCopyOverRun` | internal/storage/postgres/sharewriter.go:277-297 | Over every run up to shutdown: that COPY is free of duplicates if and only if no share still retained was in a write that was committed but reported as failed |
| `ShareWriter.ShutdownLoses` | internal/storage/postgres/store.go:145-149 | Under the unique index on share ids a COPY with a duplicate fails as a whole: the shutdown then loses, uncounted, exactly the final batch less what was already committed, and loses nothing when the COPY is committed |
| `ShareWriter.ShutdownLosesOverRun` | internal/storage/postgres/sharewriter.go:277-297 | Over every run: with a healthy database the shutdown loses a share if and only if it was in the final batch, not yet in the database, and some retained share had been committed by a write reported as failed |
| `ShareWriter.FinalCopyKeepsAll` | internal/storage/postgres/sharewriter.go:277-297 | When the shutdown COPY is committed, every accepted share is in the database, the log or the counted drops, and no share is in the database twice |
| `ShareWriter.ShutdownRestarts` | internal/storage/postgres/sharewriter.go:277-297 | After an orderly stop, whatever became of its COPY, the next process starts from a log and database that satisfy the invariant, so no later run repeats a share either |
| `ShareWriter.FinalCopyExample` | internal/storage/postgres/sharewriter.go:277-297 | A concrete run: one flush that commits but reports an error, then one more submit; the final COPY repeats the first share, fails, and the second is lost |
| `ShareWriter.Writer.constructor` | internal/storage/postgres/sharewriter.go:131-168 | A new writer is empty over whatever log and database it finds |
| `ShareWriter.Writer.Submit` | internal/storage/postgres/sharewriter.go:170-179 | Queue if there is room, divert otherwise |
| `ShareWriter.Writer.DivertOne` | internal/storage/postgres/sharewriter.go:183-193 | To the log when it accepts, else dropped and counted |
| `ShareWriter.Writer.ReceiveShare` | internal/storage/postgres/sharewriter.go:300-304 | One share from the queue to the batch, and a flush at the batch size |
| `ShareWriter.Writer.Flush` | internal/storage/postgres/sharewriter.go:238-258 | Retained and batched shares are written together; retained ones force the deduplicating insert |
| `ShareWriter.Writer.FinishFlush` | internal/storage/postgres/sharewriter.go:259-273 | A reported failure retains the batch, whether or not it was committed |
| `ShareWriter.Writer.KeepForRetry` | internal/storage/postgres/sharewriter.go:321-331 | The newest 250000 stay, the oldest spill |
| `ShareWriter.Writer.SpillOldest` | internal/storage/postgres/sharewriter.go:332-334 | Overflow goes to the log one share at a time |
| `ShareWriter.Writer.InsertMissing` | internal/storage/postgres/sharewriter.go:375-404 | The loop inserts exactly the ids not yet present |
| `ShareWriter.Writer.ReplayBatch` | internal/storage/postgres/sharewal.go:60-77 | A log batch goes through the deduplicating insert and counts as confirmed only on success |
| `ShareWriter.Writer.FinishDrain` | internal/storage/postgres/sharewal.go:60-77 | Only confirmed lines leave the log |
| `ShareWriter.Writer.EmptyQueue` | internal/storage/postgres/sharewriter.go:279-282 | The queue is emptied into the batch, in order |
| `ShareWriter.Writer.ShutDown` | internal/storage/postgres/sharewriter.go:283-297 | Everything in memory goes into one plain COPY and is gone from memory either way |
| `Rounding.TotalWithin` | internal/rewards/rewards.go:76-81 | A rounded left-to-right sum of n positive floats is within (1-u)^(n-1) and (1+u)^(n-1) of the exact sum |
| `Rounding.PartsOfTotal` | internal/rewards/rewards.go:101-103 | The rounded parts of an amount stay between its multiples by (1-u)^3/(1+u)^(n-1) and (1+u)^3/(1-u)^(n-1), in any order |
| `Rounding.FactorsBalance` | internal/rewards/rewards.go:101-103 | Those two factors sum to at least 2, so an excess below one satoshi bounds the shortfall too |
| `Rewards.OrderUnique` | internal/rewards/rewards.go:91-96 | Any sorting by difficulty descending, then miner ascending, returns the same sequence |
| `Calculators.SortMeans` | internal/rewards/rewards.go:91-96 | Positive work only, more difficulty first, and of equal work the miner whose name comes first, as `LexMeans` compares names |
| `Rewards.RemainderBound` | internal/rewards/rewards.go:99-111 | When amount*((1+u)^3/(1-u)^(n-1) - 1) < 1 the floored shares never exceed the amount and the remainder loop makes at most n increments |
| `Rewards.PaysExactly` | internal/rewards/rewards.go:72-119 | Under that bound the credits sum exactly to the amount and all are positive |
| `Rewards.DistributeSum` | internal/rewards/rewards.go:99-119 | For every rounding: the credits sum to the amount if the floored shares do not exceed it, and to the floored shares otherwise; dropping zeros loses nothing |
| `Rewards.ExactIsFine` | internal/rewards/rewards.go:72-119 | Exact arithmetic meets the bound for every amount |
| `Rewards.BinaryOverpays` | internal/rewards/rewards.go:101-103 | Binary64 stores the amount 2^53 + 3 as 2^53 + 4, and a single miner is then credited a satoshi more than there is |
| `Rewards.BoundIsNeeded` | internal/rewards/rewards.go:101-103 | Wherever the bound fails for one paid miner, some rounding within the same relative error pays more than the amount |
| `Rewards.FineEnoughExactly` | internal/rewards/rewards.go:72-119 | For one paid miner the bound holds if and only if no rounding within the error can pay anything but the amount |
| `Rewards.TopUpAt` | internal/rewards/rewards.go:106-111 | What the cyclic remainder loop leaves in each position |
| `Rewards.MoreWorkNeverEarnsLess` | internal/rewards/rewards.go:85-118 | For any order-preserving rounding and distinct miners, more work never earns less |
| `Rewards.WithinOneSatoshi` | internal/rewards/rewards.go:85-118 | In exact arithmetic each credit is within one satoshi of the proportional share |
| `Rewards.OrderIndependent` | internal/rewards/rewards.go:85-118 | In exact arithmetic the credits do not depend on the order of the input |
| `Rewards.SumWork` | internal/rewards/rewards.go:76-81 | The summing loop |
| `Rewards.KeepPositive` | internal/rewards/rewards.go:85-90 | The filtering loop keeps exactly the positive work, in order |
| `Rewards.FloorShares` | internal/rewards/rewards.go:98-105 | The loop computes the floored shares and their sum |
| `Rewards.HandOutRemainder` | internal/rewards/rewards.go:108-111 | The cyclic loop hands out exactly the missing satoshis, from the first credit on |
| `Calculators.LeftoverMeans` | internal/rewards/rewards.go:106-111 | Of k satoshis left over each of n credits gets k / n, and the first k % n one more |
| `Rewards.DropZeros` | internal/rewards/rewards.go:113-118 | The loop drops exactly the credits that are not positive |
| `Rewards.DistributeCredits` | internal/rewards/rewards.go:72-119 | The whole of distribute, loop by loop, is the function the results above are about |
| `Rewards.FeeWithinReward` | internal/rewards/rewards.go:57-66 | Fee and rest sum to the reward, both between zero and the reward, whenever rounding is fine enough for the reward |
| `Rewards.FeeFloored` | internal/rewards/rewards.go:65-65 | In exact arithmetic the fee is rounded down by less than a satoshi |
| `Calculators.FeeMeans` | internal/rewards/rewards.go:57-66 | No fee below, everything from one hundred percent on, the truncated rounded product between, and the rest to the miners |
| `Rewards.PaysInFull` | internal/rewards/rewards.go:136-208 | A proportional calculator pays the whole amount, falling back to the finder, and refuses exactly when there is neither work nor a finder |
| `Calculators.SoloMeans` | internal/rewards/rewards.go:129-144 | SOLO pays the finder everything and nobody else anything |
| `Calculators.OnlyWorkersPaid` | internal/rewards/rewards.go:72-119 | A split credits nobody without positive work of its own |
| `Calculators.NoWorkIsSolo` | internal/rewards/rewards.go:164-172 | Without positive work a proportional calculator does what SOLO does |
| `Calculators.WindowMeans` | internal/rewards/rewards.go:190-208 | The PPLNS window is the factor, 2 by default, times the network difficulty, and is refused when not positive |
| `WorkBackward.WorkBackward` | internal/storage/postgres/rewards.go:101-166 | The paged walk terminates and returns the sums of one unpaged newest-first walk over the rows paging gets to see, for every page size and any addition |
| `WorkBackward.CountPage` | internal/storage/postgres/rewards.go:128-145 | A page is counted until the target is reached and then only drained |
| `WorkBackward.ShortestPrefix` | internal/storage/postgres/rewards.go:96-100 | The walk counts the shortest prefix that reaches the target, or everything |
| `WorkBackward.SumsPerMiner` | internal/storage/postgres/rewards.go:143-144 | Each miner's sum is its own difficulty in the counted prefix |
| `WorkBackward.SeesEverything` | internal/storage/postgres/rewards.go:115-127 | Paging reads every row if and only if no tie straddles a page boundary |
| `WorkBackward.CountsTheSameRows` | internal/storage/postgres/rewards.go:101-166 | The paged walk counts the rows of the plain walk if and only if no tie straddles a page boundary among the rows counted; ties further back do not matter |
| `WorkBackward.PagedIsPlain` | internal/storage/postgres/rewards.go:101-166 | With no such tie, distinct timestamps in particular, the paged walk returns what the plain walk over all rows returns, for every page size |
| `WorkBackward.TieIsSkipped` | internal/storage/postgres/rewards.go:123-127 | One share more than a page at a single instant: the paged walk returns a page's worth of difficulty, the plain walk one share more |
| `Calculators.CutOff` | internal/storage/postgres/rewards.go:113-122 | The walk sees exactly the rows up to its cut-off, a suffix of the table |
| `Calculators.NextPageMeans` | internal/storage/postgres/rewards.go:119-127 | And after a page exactly the rows older than its last one |
| `Jobs.JobIdInjective` | internal/jobs/manager.go:100-101 | Job ids are distinct for distinct counters |
| `Jobs.JobIdMeans` | internal/jobs/manager.go:100-101 | A job id is its number in lower-case hexadecimal without a leading zero |
| `Jobs.PollMeans` | internal/jobs/manager.go:71-125 | A poll makes a job exactly when it was built and one of four template fields changed: the next in number, clean when the previous hash changed, current and remembered |
| `Jobs.StepKeepsInv` | internal/jobs/manager.go:99-118 | Each step keeps: exactly the last eight jobs remembered in order, the current one newest, and passed shares of remembered jobs in their duplicate set |
| `Jobs.RememberedExactly` | internal/jobs/manager.go:105-118 | A job id is remembered if and only if it is the id of one of the last eight counters handed out |
| `Jobs.TwiceOnlyWhenStale` | internal/jobs/submit.go:41-66 | In every run, with look-up and duplicate check as two steps, of two passes of one job and key the earlier came while the job was remembered and the later after it was evicted |
| `Jobs.PassesExactly` | internal/jobs/submit.go:41-66 | In every run a job and key pass at most twice; they pass if and only if some check of them was made, and twice if and only if one check came while the job was remembered and one after its eviction |
| `Jobs.NoShareTwice` | internal/jobs/submit.go:41-66 | When no check comes after an eviction, as with an atomic submit, no job id and five texts pass twice in a whole run; duplicate sets exist for remembered jobs only and are bounded |
| `Jobs.GapPassesTwice` | internal/jobs/submit.go:42-66 | Two look-ups of one share, eight jobs and two checks do let it pass twice |
| `Jobs.KeyInjective` | internal/jobs/submit.go:52-54 | Different texts without a colon have different keys |
| `Jobs.Manager.constructor` | internal/jobs/manager.go:49-57 | A new manager remembers nothing |
| `Jobs.Manager.PollTemplate` | internal/jobs/manager.go:71-125 | A changed template becomes a new job; the eviction loop forgets the oldest with its duplicate set |
| `Jobs.Manager.Get` | internal/jobs/manager.go:161-166 | Returns the job stored under the id, and finds one exactly for the ids of the last eight jobs |
| `Jobs.Manager.CheckDuplicate` | internal/jobs/submit.go:55-66 | The second half of a submit: refuses a seen key and records a new one, creating the set when there is none |
| `Jobs.Manager.SubmitShare` | internal/jobs/submit.go:41-66 | A submit as one step: unknown job, duplicate, or on to validation, with the whole new state |
| `MinuteRing.AddedExact` | internal/stats/stats.go:29-37 | An addition less than fifteen minutes behind the newest keeps the buckets equal to the history on the window |
| `MinuteRing.LateAdditionExact` | internal/stats/stats.go:29-37 | An addition fifteen or more minutes late keeps them equal if and only if nothing was recorded in the newer minute whose bucket it takes |
| `MinuteRing.LateExample` | internal/stats/stats.go:29-37 | A share in minute 20 and then one stamped minute 5: the bucket is taken over and minute 20 forgotten |
| `MinuteRing.OneMinuteMore` | internal/stats/stats.go:46-55 | Widening the window by a minute adds that minute's difficulty |
| `MinuteRing.Ring.constructor` | internal/stats/stats.go:24-27 | A zero ring stands for an empty history |
| `MinuteRing.Ring.Add` | internal/stats/stats.go:29-37 | Overwrites or extends one bucket in place; within the window of the newest minute the ring stays faithful to the history |
| `MinuteRing.Ring.Sum` | internal/stats/stats.go:40-57 | The loop returns exactly the difficulty the whole history recorded in the last n minutes, n capped at fifteen, whenever they lie in the window |
| `Ledger.UpsertTotals` | internal/storage/postgres/rewards.go:215-222 | The upsert changes one balance and its pool's total by the amount and nothing else |
| `Ledger.CreditBlockSound` | internal/storage/postgres/rewards.go:188-235 | Crediting keeps the books sound: conservation per pool, balance equal to audit trail, no negative balance, unique rows |
| `Accounts.CreditBlockPays` | internal/storage/postgres/rewards.go:205-222 | Crediting an unrewarded block gives every miner of its pool the sum of its own credits, and nobody else anything |
| `Accounts.CreditBlockRecords` | internal/storage/postgres/rewards.go:188-235 | One audit row per credit, in order, then one for a fee; that block flagged and no other; nothing for a missing or rewarded block |
| `Ledger.BeginPayoutSound` | internal/storage/postgres/payouts.go:15-84 | So does deducting a batch |
| `Accounts.BeginTakes` | internal/storage/postgres/payouts.go:22-58 | A payout empties exactly the balances of its pool that are at the minimum and have an address, and leaves the others |
| `Accounts.BeginPays` | internal/storage/postgres/payouts.go:49-76 | The payment rows it adds are exactly those balances in full, to the miner's own address, on their way under the batch's id |
| `Ledger.MarkSentSound` | internal/storage/postgres/payouts.go:87-98 | So does marking a batch sent |
| `Ledger.RefundSound` | internal/storage/postgres/payouts.go:102-158 | So does refunding a batch |
| `Accounts.RefundPays` | internal/storage/postgres/payouts.go:102-158 | Refunding gives every miner exactly its payments of the batch that were still on their way |
| `Accounts.SettlingMarks` | internal/storage/postgres/payouts.go:87-158 | Exactly those rows become failed, or sent when the batch is finalised, and finalising touches no balance |
| `Ledger.UpdatesDeduct` | internal/storage/postgres/payouts.go:22-58 | Row by row, the updates empty exactly the balances at the minimum whose miner validates |
| `Ledger.DeductLoop` | internal/storage/postgres/payouts.go:49-76 | The loop over the candidates: deducted rows, audit rows and payment rows of exactly the chosen balances |
| `Ledger.Store.CreditBlockRewards` | internal/storage/postgres/rewards.go:188-235 | One transaction, undone as a whole on rollback; a block rewarded before changes nothing; reports no error exactly when the block exists and was rewarded before or the transaction commits |
| `Ledger.Store.Begin` | internal/storage/postgres/payouts.go:15-84 | One transaction; returns the payments of the batch exactly when it commits without an error |
| `Ledger.Store.MarkPaymentsSent` | internal/storage/postgres/payouts.go:87-98 | Finalizes the open rows of the batch, and reports an error when there is none |
| `Ledger.Store.Refund` | internal/storage/postgres/payouts.go:102-158 | Gives every open payment of the batch back with an audit row and marks the rows failed |
| `Payouts.StepKeepsInv` | internal/payouts/payouts.go:133-191 | Each step of any number of payout processors, reward passes and crashes keeps the books sound and the batch bookkeeping consistent |
| `Payouts.MoneyIsConserved` | internal/storage/postgres/rewards.go:188-235 | After every run: balances plus sending and sent payments plus fees are the rewards of rewarded blocks, balances are their audit trails, none is negative |
| `Payouts.HandedAtMostOnce` | internal/payouts/payouts.go:158-175 | No batch is handed to the wallet twice |
| `Payouts.RunMovesRows` | internal/storage/postgres/payouts.go:87-158 | Over any run a payment goes from sending to sent or from sending to failed, and nothing else about it changes |
| `Payouts.BothOnlyWhenLost` | internal/payouts/payouts.go:173-186 | Over any run a batch is both broadcast and refunded if and only if the wallet call for this very batch reported an error although the transaction went out, and a refund of it took effect |
| `Payouts.LostExactly` | internal/payouts/payouts.go:173-186 | Over any run a batch ends up broadcast with an error reported if and only if the wallet lost it in that way in one of the steps |
| `Payouts.LostIsBoth` | internal/payouts/payouts.go:173-186 | Such a call, followed by the refund, does lead to both |
| `Payouts.InterruptedExactly` | internal/payouts/payouts.go:173-186 | A batch becomes interrupted exactly when its processor crashes, its settlement is rolled back, or its deduction does not report success |
| `Payouts.InterruptedStays` | internal/payouts/payouts.go:134-145 | A batch that is interrupted, by a crash of its processor in particular, stays in sending for ever: no later pass sends, marks or refunds it |
| `Payouts.OutputsPositive` | internal/payouts/payouts.go:207-219 | The wallet's guards never refuse a batch: outputs are there and all positive |
| `Payouts.OutputsSum` | internal/payouts/payouts.go:166-171 | Outputs pay every address what its rows say and sum to the batch, shared addresses included |
| `Payouts.Aggregate` | internal/payouts/payouts.go:166-171 | The loop computes those outputs and the total |
| `Payouts.PassFromBegin` | internal/payouts/payouts.go:133-191 | What a pass leaves in the books for every outcome of deduction, wallet and settlement |
| `Payouts.Pass` | internal/payouts/payouts.go:133-191 | A pass over the store does what its run of steps does, deduct, send, then mark or refund, and each of its six reports is given exactly for its outcomes of deduction, wallet and settlement |
| `Amounts.AmountRoundTrip` | internal/payouts/payouts.go:30-35 | The eight-decimal text of an amount of either sign reads back to exactly that amount |
| `Texts.AmountMeans` | internal/payouts/payouts.go:30-35 | Whole coins without leading zeros, a point and eight digits, which without the point write the amount in the smallest unit |
| `Amounts.NegationEnds` | internal/payouts/payouts.go:30-33 | For a negative int64 the recursive call gets a positive amount unless it is the smallest, which is its own negation |
| `Pplns.Calculate` | internal/rewards/rewards.go:190-208 | The calculator with the paged walk behind it: refuses without a window target, otherwise splits by the walk's sums, falling back to the finder |
| `Pplns.PaysInFullOnFloats` | internal/rewards/rewards.go:190-208 | For every rounding, the PPLNS calculator refuses exactly without a window target or without both work and finder, and otherwise pays the whole amount, as long as rounding is fine enough for the miners it pays at that target |
| `Pplns.WindowIsShortest` | internal/storage/postgres/rewards.go:98-100 | The window is the shortest newest-first prefix whose difficulty reaches the target, or all shares |
| `Pplns.PaysTheWindow` | internal/rewards/rewards.go:184-208 | End to end, in exact arithmetic and with no tie at a page boundary among the rows counted: the whole amount is paid, and every miner in the window gets its part of the window's difficulty within one satoshi |
| `Confirm.CheckMeaning` | internal/rewards/confirm.go:50-84 | A block is confirmed exactly when its hash is on the best chain at maturity depth, and orphaned exactly when another hash is there and the chain is past the orphan depth; progress is complete only on confirmation |
| `Confirm.FoldMeaning` | internal/rewards/confirm.go:67-67 | Hashes are compared character by character, up to the case of ASCII letters |
| `Confirm.CheckOnHashes` | internal/rewards/confirm.go:50-84 | The whole result of a check on lower-case hashes, with plain equality of hashes and the default depths 100 and 12 |
| `Confirm.WritesAnother` | internal/rewards/confirm.go:50-84 | For a settled block those views are exactly the ones under which the outcome to be stored is another status |
| `Confirm.CreditedOnce` | internal/storage/postgres/rewards.go:188-235 | With any number of processors no block is credited twice, and a credited block gets its whole reward |
| `Confirm.FinalExactly` | internal/storage/postgres/rewards.go:63-69 | For any number of processors: settled statuses never change in a run if and only if no stored check meets a confirmed block under a view in which it was replaced past the orphan depth or is on the best chain but not mature, or an orphaned block under a view that has it on the best chain |
| `Confirm.GuardedStatusIsFinal` | internal/storage/postgres/rewards.go:63-69 | In a run without such a meeting every settled block keeps its status to the end |
| `Confirm.StepSafe` | internal/rewards/processor.go:85-144 | A step that meets no settled block under such a view keeps: rewarded blocks confirmed, confirmed blocks seen mature, and every processor's reward snapshot made of confirmed blocks |
| `Confirm.GuardedCreditsAreEarned` | internal/rewards/processor.go:85-144 | In such a run of any number of processors a credited block is confirmed, was seen on the best chain at maturity depth, and was credited exactly once and in full |
| `Confirm.TurnsNeverOverwrite` | internal/rewards/processor.go:78-119 | Any number of processors: when none starts a sweep over unconfirmed blocks while another is in the middle of one, no settled block is overwritten, whatever the chain views |
| `Confirm.TurnsEarnCredits` | internal/rewards/processor.go:85-144 | On such a schedule a credited block is confirmed, was seen on the best chain at maturity depth, and was credited exactly once and in full |
| `Confirm.RunSingle` | internal/rewards/processor.go:85-144 | One processor's sweeps take turns with themselves, so it never overwrites a settled block, whatever the chain views |
| `Confirm.StatusIsFinal` | internal/rewards/processor.go:85-119 | With one processor confirmed and orphaned are final, whatever the chain does afterwards |
| `Confirm.CreditsAreEarned` | internal/rewards/processor.go:85-144 | With one processor a credited block is confirmed, was seen on the best chain at maturity depth, and was credited exactly once and in full |
| `Confirm.RaceOrphansCredited` | internal/storage/postgres/rewards.go:63-69 | With two processors a credited block can end up orphaned, since the status update has no guard |
| `Confirm.RewardMakesUpBlock` | internal/rewards/processor.go:121-144 | Fee and credits of a computed reward make up the block's reward, as the books require |
| `Confirm.SoloMakesUpBlock` | internal/rewards/rewards.go:129-144 | So do they for SOLO, which pays all but the fee to the finder and refuses exactly without one |
| `Confirm.Processor.ConfirmPass` | internal/rewards/processor.go:85-119 | The loop over unconfirmed blocks, stopping at the first error, is a run of the machine; no other block changes, and after a complete pass each has the status a check of it says |
| `Confirm.Processor.RewardPass` | internal/rewards/processor.go:121-144 | So is the loop over confirmed blocks that are not rewarded; nothing but flags of confirmed blocks changes, and after a complete pass all of them are rewarded |
| `Confirm.Processor.CheckOne` | internal/rewards/processor.go:91-117 | One check stores its outcome, status, confirmations and progress, unless it is pending without any or rolled back, and says whether the pass goes on |
| `Confirm.Processor.CreditOne` | internal/rewards/processor.go:126-134 | One crediting transaction, skipped when the block was rewarded before; the flag is set unless it is rolled back |
| `Pool.ChainRun` | internal/rewards/processor.go:78-83 | A run of the whole pool is a run of the confirmation machine |
| `Pool.MoneyRun` | internal/rewards/processor.go:78-83 | And a run of the money machine |
| `Pool.GuardedMoneyIsEarned` | internal/storage/postgres/rewards.go:188-235 | The same for every run in which no stored check meets a settled block under a view that contradicts it |
| `Pool.MoneyIsEarned` | internal/storage/postgres/rewards.go:188-235 | After every run of one reward processor, or of any number whose sweeps take turns, with any payout processors: all money held, on its way, paid or taken as fee is the reward of blocks that are confirmed, were seen mature on the best chain, and were credited once and in full |

## Left out

- SHA256d, scrypt, SHA-512/256d, RandomX, BLAKE2b: uninterpreted; no property needs their insides.
- The comparison of a hash with a target, share difficulty and network difficulty: an abstract predicate of the header; nothing is claimed about chain consensus.
- Mixed-case bech32: the code lower-cases first, so address results are about lower-cased text.
- JSON encoding of log lines: a record stands for its line, whose length is a parameter; a write is all or nothing, so torn lines, corrupt lines and the scanner's line limit are not modelled.
- Shares in `ShareWriter` are their ids, which are fresh for every submit (random 128-bit ids in the code); deduplication and the unique index by (id, created) are by id because a share keeps its time. The counters `written` and `toWAL` are not modelled.
- The log inside `ShareWriter` is a list whose appends and replacements may fail in every way `Spool` allows; the two models are not composed.
- Share partitions, month rollover, tickers and timeouts: a tick, a drain or a failure may happen at any time instead.
- SQL text, migrations, pgx, NATS, HTTP, TCP, RPC transport, logging, configuration, supervision: not part of this model.
- Query errors in `WorkBackward`, and a table that changes during the walk: the walk reads one fixed table; WorkBetween and PreviousBlockTime are only sources of work for the calculators; each miner's part of the window is in exact arithmetic (`PaysTheWindow`), while full payment also holds on floats (`PaysInFullOnFloats`).
- Rewards.PaysExactly: the relative-error model has no underflow, overflow or NaN; satoshi totals stay below 2^63.
- Rewards.FineEnoughExactly: the bound is exact for one paid miner; for more it is sufficient, and how far rounding can really reach depends on the sizes of the works.
- ConvertBits.ConvertBits: group widths from 1 to 8, which covers the program's one call (5 to 8, `address.go:248`); wider output groups would be truncated to bytes by the code.
- Address.AddressToScript: trimming and lower-casing are ASCII, where the code's also know other Unicode spaces and letters.
- Address.NormalizeAddress: the same, on what it trims and lower-cases.
- Confirm.FoldMeaning: folds ASCII letters, where the code's comparison also knows other Unicode cases; hashes are hexadecimal.
- ShareDelivery.HealthyDelivers: says that success is always possible, not that a schedule takes it; tickers and timeouts are not modelled.
- Amounts.AmountRoundTrip: over unbounded integers; on the smallest int64 the code's recursion does not end (`NegationEnds`).
- Rewards.OrderUnique: characters are compared as Dafny characters, which is Go's byte order for ASCII names.
- Ledger.Store.Begin: a batch lists its rows in table order; the code orders them by miner, which no result depends on. Payment ids and timestamps are not modelled.
- Payouts.Pass: one uninterrupted pass; crashes between its steps are in the state machine. Stuck batches are only logged by the code, so their listing and its grace period are not modelled. Batch ids are fresh.
- Confirm.Processor.RewardPass: takes the calculation as a parameter whose credits and fee make up the reward, which `RewardMakesUpBlock` proves of the proportional calculators and `SoloMakesUpBlock` of SOLO. Blocks are visited in table order rather than by height.
- Mining.BuildMiningJob: the network target is not computed, so bits whose target is wider than 32 bytes, on which the code panics, are not singled out; raw template JSON is not parsed.
- Jobs.Manager.PollTemplate: building the job and the broadcast are outside; the counter is unbounded, so its wrap after 2^64 jobs is not modelled.
- Jobs.NoShareTwice: is about submitted texts, not decoded bytes; two spellings of one share are two shares, as in the code.
- MinuteRing.Ring.Sum: additions are exact, and minutes are at or after the epoch.
- The miner map of the statistics collector, bans, the session map, vardiff and the pool lifecycle: single-function facts or timing.
- Cross-node extranonce uniqueness: not claimed; within one node it is a counter.
