# Verification of the ZERA validator's core algorithms

This project models the parts of the validator whose correctness is not visible from reading one
function, and proves what they are for. Each module follows one component of the program; where the
program updates fields, buffers and maps in place, so does the model.

- **BLAKE3** (`Bits`, `Bytes`, `Blake3*`). `Blake3Spec` defines the hash as a recursive binary tree
  (sections 2.1 and 2.4 to 2.6 of the BLAKE3 paper), for any compression function. The other modules
  are the incremental hasher: the lazily flushed block buffer, the wide compression that depends on a
  SIMD degree, the lazily merged stack of chaining values, and the rolling-up at the end. The main
  result is that in any sequence of `update`, `finalize_seek` and `reset` calls every read gives the
  one output stream of the tree over what was absorbed since the last reset. And the hash binds: two
  different messages, or places in the output, with the same 64 bytes exhibit two different arguments
  of the compression with the same result (`Blake3Binding`).
- **Base58** (`Base58Spec`, `Base58`, `PublicKeys`). Numbers in two bases with leading zeros kept, the
  long-division loops over buffers of `n*138/100+1` and `n*733/1000+1` bytes, and the exponential
  bounds that make these buffers large enough.
- **Stake archive** (`Stake`, `Sums`). Capping and scaling of stakes by nested floor divisions, over
  any validators, contracts and balances; the weight of other contracts never exceeds ZERA's, and no
  contract loses more to the floors than a unit per stake and the rounding of its multiplier.
- **Pending balances** (`Ledger`, `BalanceTracker`, `Replay`, `BlockRun`, `BatchChecks`). An overlay of
  wallet totals, and per transaction what was added to and subtracted from each wallet. Exactly when an
  operation keeps totals and records in agreement, that the checks before each batch see to it, and
  what a coin transaction moves, per wallet and in all (`TokenFlow`).
- **Replay** (`BlockReplay`, `RunReplay`). Replaying the records of any list of transactions, in any
  order, into block balances: exactly when one of the debits fails, and how each balance then differs
  from the overlay's total. In processing order and without gaps no debit fails, and every wallet gets
  the total the overlay held.
- **Fees** (`TokenFees`, `Supply`, `Fees`). Splitting a fee among its receivers, the parts of several
  signers, and the fee records of a block; exactly when the sum over all wallets stays the same, in the
  256 bits of the balances.
- **Votes** (`Votes`). Tallies kept incrementally by casting votes and by balance moves always equal a
  recount, and in the end count what the wallets' last messages said.
- **Restricted keys** (`RestrictedKeys`). A depth-first search over a possibly cyclic inheritance graph
  decides reachability.
- **Nonces** (`Nonces`, `NonceOrder`, `PendingTxns`). Two passes over pending transactions, with the
  status and the nonces used up by each kind of transaction. Which transactions of a complete batch are
  accepted, and exactly when the nonces used up and the nonces accepted go on without a gap.
- **Merkle root** (`Merkle`) and **proposer selection** (`Selection`).

Results of the program that its comments and names do not suggest, and that are stated here as they
are:

- The list of transactions that is replayed is not in processing order, since preprocessed transactions
  come first and sorted by their keys, and it has gaps, since a transaction that was charged and then
  refused keeps its records but is not listed. The replay ignores failing debits. None fails if and only
  if at every position each debited wallet is stored or credited by then, and what the list adds by then
  covers what it subtracts (`BlockReplay.BlockBalances.AddTempWalletBalance`). A wallet ends with the
  overlay's total, less what the transactions left out of the list moved, plus what failing debits did
  not take (`RunReplay.ProcessAndReplay`). Replayed the other way round, or without the first of them,
  two payments make a token appear (`RunReplay.TokenAppears`).
- The batches that read all totals from the store (`add_txn_balance_premint`,
  `subtract_txn_balance_transfer`) would by themselves lose what an earlier entry of a wallet moved
  (`BalanceTracker.PremintBalance`, `BalanceTracker.InputBatchBalance`). Their callers refuse a wallet
  that is named twice, so in the program they always keep the ledger balanced
  (`BatchChecks.CheckPremints`, `BatchChecks.TransferCoins`).
- A contract may name any percentages, and its shares and the balances wrap around at 2^256. As long as
  the tokens of all wallets together stay below 2^256, a paid contract fee leaves their number as it was
  if and only if the shares of the validator and of burning do not exceed the fee, or the fee address
  holds the excess when it is credited; with no percentage left for the fee address, if and only if they
  use the fee up (`Fees.ContractFeeConserves`). At exactly 100 percent one unit can vanish, and above 100
  percent a fee address without tokens ends with 2^256 - 1 of them (`Fees.LossAndGain`).
- A coin transaction compares the sums of its inputs and outputs in 256 bits. If all tokens of its
  contract are fewer than 2^256, a transaction that passes leaves their number as it was, but for the
  fees, if and only if the outputs add up to less than 2^256 (`BatchChecks.TransferCoins`); an input of 1
  with outputs of 2^256 + 1 in all passes as well (`BatchChecks.SumsCompareWrapped`).
- An interface fee is conserved if and only if every signer covers its part, or the first one does not,
  or the fee is smaller than the number of signers; otherwise the parts of the signers before the first
  that cannot pay are gone (`Fees.InterfaceFeeConserves`, `Fees.HalfPaid`).
- A mint whose nonce is ahead is dropped in the first pass and not tried again. A complete batch is
  accepted as a whole if and only if for every mint in it the transactions of its wallet up to that
  nonce stand in ascending order (`NonceOrder.AllPlaced`, `PendingTxns.MintIsDropped`).
- A registration that is charged and then refused uses up its nonce: the wallet's accepted nonces then
  have a gap (`Nonces.RegistrationLeavesGap`). One whose two keys differ files the nonce under the other
  key's wallet, which can set that wallet back to nonces already used (`Nonces.MisfiledSetsBack`).
- The Merkle root binds the transactions only together with their number: repeating a whole last
  subtree, where its level has an odd number of nodes, changes nothing (`Merkle.RootRepeated`).
  Two lists with trees of one height have the same root if and only if they fill up to the same list, or
  exhibit a collision (`Merkle.RootBindsPadded`).
- If the first candidate in sorted order has no weight, proposer selection cannot finish
  (`Selection.SelectValidators`).

## Model

| member | source | states |
|---|---|---|
| Bits.ClearLowestBit | z_validator/z_validator/blake3/blake3_impl.h:118-129 | `x & (x - 1)` is smaller than x and has exactly one 1-bit less |
| Bits.PopCnt | z_validator/z_validator/blake3/blake3_impl.h:118-129 | the loop counts the 1-bits of x, and ends |
| Bits.HighestOne | z_validator/z_validator/blake3/blake3_impl.h:88-115 | the six masked steps find the exponent of the largest power of two not above x |
| Bits.RoundDownToPowerOf2 | z_validator/z_validator/blake3/blake3_impl.h:131-135 | the largest power of two not above x, and 1 for 0 |
| Bits.FloorPow2Unique | z_validator/z_validator/blake3/blake3_impl.h:131-135 | a power of two u with u <= n < 2u is the rounded-down power of n |
| Bits.AndMaskIsMod | z_validator/z_validator/blake3/blake3.c:505-523 | masking with u - 1 is the remainder modulo the power of two u |
| Bytes.LoadStoreWords | z_validator/z_validator/blake3/blake3_impl.h:143-178 | storing words little-endian and loading them back is the identity |
| Bytes.StoredWord | z_validator/z_validator/blake3/blake3_impl.h:143-178 | words are stored little-endian: a word is the sum of its four bytes, the first counting least |
| Blake3Spec.HashReadsConcatenate | z_validator/z_validator/blake3/blake3.c:569-611 | adjacent reads of the output concatenate: it is one stream that `seek` indexes |
| Blake3Spec.BlockFoldPrefix | z_validator/z_validator/blake3/blake3.c:112-140 | folding the first k blocks depends on no later byte |
| Blake3Spec.LeftChunksAt | z_validator/z_validator/blake3/blake3.c:155-162 | the left subtree has u chunks exactly when u is the power of two that leaves at least one byte and at most u chunks to the right |
| Blake3Binding.FoldBinds | z_validator/z_validator/blake3/blake3.c:112-140 | two folds of blocks of one chunk that both begin it, or both go on in it, have one value only for the same blocks, or a collision is exhibited |
| Blake3Binding.ChunkBinds | z_validator/z_validator/blake3/blake3.c:142-147 | two chunk nodes are equal only for the same bytes, length included, at the same place, or a collision is exhibited |
| Blake3Binding.NodeBinds | z_validator/z_validator/blake3/blake3.c:149-162 | two nodes of the tree are equal only for the same bytes at the same place, or a collision lies below them |
| Blake3Binding.OutputBlock | z_validator/z_validator/blake3/blake3.c:89-110 | the t-th 64 bytes of the output are the root's compression with counter t |
| Blake3Binding.HashBinds | z_validator/z_validator/blake3/blake3.c:569-611 | equal blocks of output of different messages, or at different places, exhibit two different arguments of the compression with the same result, in every mode |
| Blake3Chunk.ChunkState.FillBuf | z_validator/z_validator/blake3/blake3.c:34-44 | copies as much as fits into the 64-byte buffer and keeps the buffered part equal to the absorbed bytes |
| Blake3Chunk.ChunkState.FinishBuffered | z_validator/z_validator/blake3/blake3.c:114-126 | a begun block is completed, and compressed only when input follows it |
| Blake3Chunk.ChunkState.AbsorbBlocks | z_validator/z_validator/blake3/blake3.c:128-135 | whole blocks are compressed until at most 64 bytes are left |
| Blake3Chunk.ChunkState.Update | z_validator/z_validator/blake3/blake3.c:112-140 | after any split of a chunk's bytes the state is the fold of all blocks but the last, with the last buffered |
| Blake3Chunk.ChunkState.GetOutput | z_validator/z_validator/blake3/blake3.c:142-147 | the output node is the specification's chunk node for exactly the absorbed bytes |
| Blake3Chunk.ChunkState.Reset | z_validator/z_validator/blake3/blake3.c:20-27 | the state holds nothing again, with the new counter |
| Blake3Chunk.HashChunk | z_validator/z_validator/blake3/blake3.c:190-205 | hashing a partial chunk through a fresh state gives the specification's chaining value |
| Blake3Portable.HashOne | z_validator/z_validator/blake3/blake3_portable.c:125-143 | writes the fold of all blocks, first and last flagged, into its 32-byte slot and nothing else |
| Blake3Portable.HashMany | z_validator/z_validator/blake3/blake3_portable.c:145-160 | writes one value per input side by side, counting up if asked to |
| Blake3Portable.FullChunk | z_validator/z_validator/blake3/blake3_portable.c:125-143 | for a full chunk the batch path with start and end flags equals the chunk node of the specification |
| Blake3Portable.ParentBlock | z_validator/z_validator/blake3/blake3_portable.c:125-143 | for a parent block it equals the parent node of the specification |
| Blake3Tree.CondenseKeepsTop | z_validator/z_validator/blake3/blake3.c:207-245 | joining neighbours in a list of values (an odd last one kept) leaves the top of the left-heavy tree over the list as it was |
| Blake3Tree.CondenseKeepsChildren | z_validator/z_validator/blake3/blake3.c:207-245 | and, with more than two values, leaves both children of the top as they were |
| Blake3Tree.ChunkCvsTop | z_validator/z_validator/blake3/blake3.c:164-205 | the tree over the chunks' values has the specification's subtree value on top |
| Blake3Tree.ChunkCvsChildren | z_validator/z_validator/blake3/blake3.c:164-205 | and the specification's two child values below it |
| Blake3Wide.CompressChunksParallel | z_validator/z_validator/blake3/blake3.c:164-205 | writes the value of every chunk, the partial last one included, within its slot |
| Blake3Wide.CompressParentsParallel | z_validator/z_validator/blake3/blake3.c:207-245 | writes the condensed list within its slot |
| Blake3Wide.LeftFills | z_validator/z_validator/blake3/blake3.c:282-307 | the left half returns exactly as many values as its slot holds, so the right half's follow directly |
| Blake3Wide.HalvesStand | z_validator/z_validator/blake3/blake3.c:309-321 | the halves' values side by side, condensed or not, stand for the whole subtree |
| Blake3Wide.CompressHalves | z_validator/z_validator/blake3/blake3.c:282-307 | both recursive calls write into one buffer without a gap and without overrunning it |
| Blake3Wide.CompressSubtreeWide | z_validator/z_validator/blake3/blake3.c:247-321 | for every power-of-two SIMD degree the values returned stand for the subtree, and fit the slot |
| Blake3Wide.CompressSubtreeToParentNode | z_validator/z_validator/blake3/blake3.c:323-360 | the result is the pair of the specification's child values, whatever the degree |
| Blake3Frontier.EvenIsMerged | z_validator/z_validator/blake3/blake3.c:393-413 | with nothing to merge the stack is the perfect subtrees of the binary expansion of the chunk count, as many as it has 1-bits |
| Blake3Frontier.OddMerges | z_validator/z_validator/blake3/blake3.c:404-413 | otherwise the top two entries are equal-sized neighbours, joining them keeps the stack lazy, and the length shows that there is something to join |
| Blake3Frontier.StackState | z_validator/z_validator/blake3/blake3.c:404-413 | comparing the stack length with the number of 1-bits decides which of the two holds |
| Blake3Frontier.PushIsLazy | z_validator/z_validator/blake3/blake3.c:415-453 | pushing a subtree of h chunks onto a merged stack leaves a lazy stack |
| Blake3Frontier.StackBound | z_validator/z_validator/blake3/blake3.h:33-38 | for inputs below 2^64 bytes the stack never has more than 54 + 1 entries |
| Blake3Frontier.RollUp | z_validator/z_validator/blake3/blake3.c:603-609 | joining the last stack entry with the tail gives the node of a longer tail |
| Blake3Frontier.TailIsRoot | z_validator/z_validator/blake3/blake3.c:603-610 | with the stack used up the tail is the root |
| Blake3Hasher.OutputRootBytes | z_validator/z_validator/blake3/blake3.c:89-110 | the loop over output blocks writes exactly the requested slice of the output stream |
| Blake3Hasher.Hasher.constructor | z_validator/z_validator/blake3/blake3.c:362-376 | a fresh hasher has absorbed nothing, under the given key and flags |
| Blake3Hasher.Hasher.MergeCvStack | z_validator/z_validator/blake3/blake3.c:404-413 | merging ends, and leaves the perfect subtrees of the binary expansion of the total |
| Blake3Hasher.Hasher.PushCv | z_validator/z_validator/blake3/blake3.c:447-453 | after merging, the new value stands for the next h chunks |
| Blake3Hasher.Hasher.SubtreeLen | z_validator/z_validator/blake3/blake3.c:503-526 | the shrinking loop finds the largest power of two of bytes that fits the input and divides what is behind, a whole number of chunks |
| Blake3Hasher.Hasher.PushSubtree | z_validator/z_validator/blake3/blake3.c:526-546 | one chunk is pushed as a single value and a larger subtree as its two children, so at least two entries stay unjoined |
| Blake3Hasher.Hasher.AbsorbSubtree | z_validator/z_validator/blake3/blake3.c:503-550 | a whole subtree is absorbed by one push or a pair of pushes; the root is not joined |
| Blake3Hasher.Hasher.FinishChunk | z_validator/z_validator/blake3/blake3.c:465-488 | a begun chunk is completed, and flushed only when input follows it |
| Blake3Hasher.Hasher.Update | z_validator/z_validator/blake3/blake3.c:455-562 | for any bytes, also none, the hasher stays valid and has absorbed exactly these bytes more |
| Blake3Hasher.Hasher.FirstTail | z_validator/z_validator/blake3/blake3.c:592-602 | the rolling-up starts at the begun chunk, or at the top two entries, with the rest of the stack in front of it |
| Blake3Hasher.Hasher.RootOutput | z_validator/z_validator/blake3/blake3.c:569-611 | the rolled-up node is the root node of the tree over all absorbed bytes |
| Blake3Hasher.Hasher.FinalizeSeek | z_validator/z_validator/blake3/blake3.c:569-611 | fills the buffer with the specification's hash at `seek`, and does not change the hasher |
| Blake3Hasher.Hasher.Reset | z_validator/z_validator/blake3/blake3.c:613-616 | the hasher has absorbed nothing again |
| Blake3Hasher.InitKeyed | z_validator/z_validator/blake3/blake3.c:372-376 | the keyed hasher has the words of the key and the keyed flag |
| Blake3Hasher.InitDeriveKey | z_validator/z_validator/blake3/blake3.c:378-388 | the derived hasher is keyed with the hash of the context |
| Blake3Hasher.HashPieces | z_validator/z_validator/blake3/blake3.c:455-611 | every way of cutting a message into updates gives the tree hash of the whole, at every position read, also when read twice |
| Blake3Hasher.RunScript | z_validator/z_validator/blake3/blake3.c:455-616 | any updates, reads and resets, in any order: each read gives the tree hash of what was absorbed since the last reset |
| Base58Spec.ValueOfDigits | z_validator/z_validator/util/base58.cpp:69-79 | the digits of a number have its value |
| Base58Spec.DigitsOfValue | z_validator/z_validator/util/base58.cpp:69-97 | digits without leading zeros are the digits of their value |
| Base58Spec.CharIsAlphabet | z_validator/z_validator/util/base58.cpp:51-52 | the character of each digit is the one the alphabet string lists |
| Base58Spec.EncodeIsText | z_validator/z_validator/util/base58.cpp:88-99 | encoding yields alphabet characters only |
| Base58Spec.DecodeEncode | z_validator/z_validator/util/base58.cpp:54-199 | decoding undoes encoding, leading zero bytes included |
| Base58Spec.EncodeDecode | z_validator/z_validator/util/base58.cpp:54-199 | encoding undoes decoding of every alphabet string |
| Base58Spec.EncodeInjective | z_validator/z_validator/util/base58.cpp:54-100 | different byte strings have different texts |
| Base58.EncodeRoom | z_validator/z_validator/util/base58.cpp:65-67 | n bytes always fit into n*138/100+1 base-58 digits |
| Base58.DecodeRoom | z_validator/z_validator/util/base58.cpp:164-166 | n characters always fit into n*733/1000+1 bytes |
| Base58.MulAdd | z_validator/z_validator/util/base58.cpp:72-78 | one pass over the buffer multiplies its number and adds, carrying the rest, also for the carry -1 of a character that is not found |
| Base58.NoCarry | z_validator/z_validator/util/base58.cpp:69-79 | if the result fits the buffer, the carry out of the top digit is 0 |
| Base58.Transcode | z_validator/z_validator/util/base58.cpp:66-79 | after all passes the buffer holds the input's value in the other base |
| Base58.Base58Encode | z_validator/z_validator/util/base58.cpp:54-100 | the loops over the fixed-size buffer compute the encoding for every byte string |
| Base58.DecodeChars | z_validator/z_validator/util/base58.cpp:164-178 | after all characters the buffer holds the text's value, within the buffer's size |
| Base58.DecodeText | z_validator/z_validator/util/base58.cpp:164-166 | over the alphabet nothing is lost to the buffer's size |
| Base58.Base58Decode | z_validator/z_validator/util/base58.cpp:151-199 | the loops over the fixed-size buffer compute the decoding of any characters, one that is not found entering as -1; for alphabet strings that is the inverse of the encoding |
| PublicKeys.SeparatorsAreNoText | z_validator/z_validator/util/base58.cpp:51-52 | neither `_` nor `$` occurs in Base58 text |
| PublicKeys.PublicKeyRoundTrip | z_validator/z_validator/util/base58.cpp:7-48 | decoding undoes encoding of a public key with a prefix that ends in `_` |
| Stake.OnlineWithin | z_validator/z_validator/proposer/validator_balances.cpp:9-47 | a validator counts if and only if it is online, had a heartbeat within 500 blocks and runs a required version |
| Stake.BalanceRounds | z_validator/z_validator/proposer/validator_balances.cpp:48-55 | the two divisions of the conversion round once |
| Stake.GetWalletBalance | z_validator/z_validator/proposer/validator_balances.cpp:48-77 | the converted holding of a qualified contract, 0 without a record, within 256 bits |
| Stake.UpdateBalanceMap | z_validator/z_validator/proposer/validator_balances.cpp:79-93 | the map holds the sum of all stakes per contract |
| Stake.CapStakes | z_validator/z_validator/proposer/validator_balances.cpp:128-159 | every contract but ZERA gets its multiplier, and the total is the sum of the capped stakes |
| Stake.CalculateScaledStake | z_validator/z_validator/proposer/validator_balances.cpp:95-181 | the multipliers are those that the online validators' stakes determine |
| Stake.MultipliersAreSmall | z_validator/z_validator/proposer/validator_balances.cpp:141-180 | no multiplier exceeds 100 percent |
| Stake.ContractIsCapped | z_validator/z_validator/proposer/validator_balances.cpp:221-243 | a contract's archived weight before the default multiplier is at most its cap, despite the floors per stake |
| Stake.ContractKeepsCap | z_validator/z_validator/proposer/validator_balances.cpp:141-157 | above its cap a contract keeps the cap but for one unit per stake and the rounding of the multiplier; at or below it everything |
| Stake.StakeKeepsPart | z_validator/z_validator/proposer/validator_balances.cpp:225-234 | above the cap each stake weighs its part of the cap, up to one unit and the rounding of the multiplier |
| Stake.OthersAreCapped | z_validator/z_validator/proposer/validator_balances.cpp:204-253 | all other contracts' weight and the ZERA stake together are at most the capped total |
| Stake.HalfBound | z_validator/z_validator/proposer/validator_balances.cpp:161-180 | scaling by p/(1000-p) of the rounded per-mille p brings any weight within the total below the ZERA stake |
| Stake.OthersNeverOutweighZera | z_validator/z_validator/proposer/validator_balances.cpp:95-253 | after all multipliers the other contracts' weight is at most ZERA's, for all inputs |
| Stake.OthersKeepShare | z_validator/z_validator/proposer/validator_balances.cpp:161-180 | the other contracts keep everything from 500 per mille ZERA on; below, at least ZERA's share p/(1000-p), less one unit per stake and the rounding |
| Stake.StakeWeight | z_validator/z_validator/proposer/validator_balances.cpp:225-240 | the multiplier lookup always succeeds, and the weight is at most the stake |
| Stake.ValidatorWeight | z_validator/z_validator/proposer/validator_balances.cpp:214-243 | a validator's weight is the sum of its stakes' weights |
| Stake.SumValidators | z_validator/z_validator/proposer/validator_balances.cpp:204-253 | the archive lists exactly the online validators, and its total is the sum of its entries |
| Stake.ArchiveBalances | z_validator/z_validator/proposer/validator_balances.cpp:184-257 | every completed archive respects each cap and gives other contracts no more weight than ZERA; and it gives each contract its cap and the others their share, less what the floors take |
| Ledger.SplitKey | z_validator/z_validator/proposer/proposer.cpp:56-63 | the last `$` splits a key into the address and the contract it was made from |
| Ledger.RawKeyInjective | z_validator/z_validator/temp_data/balance_tracker.cpp:252-260 | no two holdings share a key of the overlay |
| Ledger.LedgerKeyInjective | z_validator/z_validator/temp_data/balance_tracker.cpp:235-248 | no two holdings share a key of a transaction's record |
| Ledger.AccountedMoves | z_validator/z_validator/temp_data/balance_tracker.cpp:105-457 | an operation changes what is accounted from its transaction on, by what it recorded, and nothing before |
| Ledger.MovedBalance | z_validator/z_validator/temp_data/balance_tracker.cpp:105-457 | an operation keeps all totals equal to stored + added - subtracted if and only if it changes each total by what it records |
| BalanceTracker.Tracker.constructor | z_validator/z_validator/temp_data/balance_tracker.cpp:100-103 | with nothing pending the ledger is balanced |
| BalanceTracker.Tracker.AddTxnBalance | z_validator/z_validator/temp_data/balance_tracker.cpp:221-261 | one credit: its record and its total, and no other |
| BalanceTracker.Tracker.SubtractTxnBalance | z_validator/z_validator/temp_data/balance_tracker.cpp:401-457 | one debit, or the status of a missing wallet or too small a balance with nothing changed |
| BalanceTracker.Tracker.AddTxnBalanceTransfer | z_validator/z_validator/temp_data/balance_tracker.cpp:105-168 | a batch of outputs moves every wallet by the sum of its entries, repeated wallets included |
| BalanceTracker.Tracker.AddTxnBalancePremint | z_validator/z_validator/temp_data/balance_tracker.cpp:170-219 | records the sum of a wallet's entries, but adds only the last one to its total |
| BalanceTracker.Tracker.SubtractTxnBalanceTransfer | z_validator/z_validator/temp_data/balance_tracker.cpp:332-399 | complete, cut short and stored at a wallet without a record, or refused and unchanged for too small a balance |
| BalanceTracker.LastMovesAll | z_validator/z_validator/temp_data/balance_tracker.cpp:185-205 | the last entry per wallet moves everything if and only if no earlier entry for it moves anything |
| BalanceTracker.AddingKeepsBalance | z_validator/z_validator/temp_data/balance_tracker.cpp:105-261 | credits, single or batched, keep the ledger balanced |
| BalanceTracker.SubtractingKeepsBalance | z_validator/z_validator/temp_data/balance_tracker.cpp:401-457 | so does a single debit |
| BalanceTracker.InputBatchBalance | z_validator/z_validator/temp_data/balance_tracker.cpp:332-399 | a batch of inputs by itself, also one cut short, does if and only if no wallet is debited again after a real debit |
| BalanceTracker.PremintBalance | z_validator/z_validator/temp_data/balance_tracker.cpp:170-219 | a premint batch by itself does if and only if no wallet is credited again after a real credit |
| BalanceTracker.PremintTwice | z_validator/z_validator/temp_data/balance_tracker.cpp:170-219 | of the bare function, which is never called like this: one token twice for a wallet records two and adds one |
| BalanceTracker.PayTwice | z_validator/z_validator/temp_data/balance_tracker.cpp:332-399 | of the bare function, which is never called like this: a wallet with one token pays two of them in one batch |
| BalanceTracker.AddOneByOne | z_validator/z_validator/temp_data/balance_tracker.cpp:105-261 | single credits in turn make the same move as the batch |
| BalanceTracker.SubtractOneByOne | z_validator/z_validator/temp_data/balance_tracker.cpp:332-457 | single debits in turn make the same move as a successful batch of distinct wallets |
| BalanceTracker.BatchIsOneByOne | z_validator/z_validator/temp_data/balance_tracker.cpp:332-399 | a complete batch of distinct wallets moves every wallet by the sum of its entries |
| Replay.StepReplayable | z_validator/z_validator/temp_data/balance_tracker.cpp:105-457 | every operation of the transaction at work keeps the records replayable: no total was ever negative, every debited wallet was known |
| BlockRun.Perform | z_validator/z_validator/temp_data/balance_tracker.cpp:105-457 | each of the five kinds of operation, whatever its outcome: which transfers go through, what is recorded, by how much the totals change |
| BlockRun.PerformedBalance | z_validator/z_validator/temp_data/balance_tracker.cpp:105-457 | an operation keeps the ledger balanced if and only if no entry overwrites what an earlier one of its wallet moved |
| BlockRun.PerformedReplayable | z_validator/z_validator/temp_data/balance_tracker.cpp:105-457 | an operation of the transaction at work leaves replayable records if and only if no entry overwrites what an earlier one of its wallet moved |
| BlockRun.TxnKeeps | z_validator/z_validator/temp_data/balance_tracker.cpp:105-457 | a whole transaction keeps the records replayable, what is accounted for the transactions before it, and the placeholder undebited |
| BlockRun.Frozen | z_validator/z_validator/temp_data/balance_tracker.cpp:105-457 | what is accounted for the first i transactions is for ever the total the overlay held after them |
| BlockRun.Process | z_validator/z_validator/temp_data/balance_tracker.cpp:105-457 | any transactions, one after the other: the books before and after each of them |
| BatchChecks.SumPremints | z_validator/z_validator/block_process/template/process_contract.cpp:189-212 | passes if and only if no address is named twice and every amount is a number, and adds the amounts up in 256 bits |
| BatchChecks.CheckPremints | z_validator/z_validator/block_process/template/process_contract.cpp:189-229 | premints are refused with nothing changed, or stored; for any premints the ledger stays balanced and replayable; what is accepted adds its whole sum to the contract's tokens, and that is within the supply or wraps around 2^256 |
| BatchChecks.CheckInputs | z_validator/z_validator/block_process/custom/process_new_coin.cpp:437-487 | passes if and only if no wallet is named twice and every input is valid and affordable; the amounts are added up in 256 bits |
| BatchChecks.CheckOutputs | z_validator/z_validator/block_process/custom/process_new_coin.cpp:489-511 | passes if and only if every output is valid |
| BatchChecks.ValidateWallets | z_validator/z_validator/block_process/custom/process_new_coin.cpp:425-521 | passes if and only if no input wallet is named twice, every input is valid and affordable, every output valid, and the 256-bit sums agree |
| BatchChecks.ProcessTransfers | z_validator/z_validator/block_process/custom/process_new_coin.cpp:523-560 | the outputs are credited if and only if the debit of the inputs is complete; else nothing moves |
| BatchChecks.TransferCoins | z_validator/z_validator/block_process/custom/process_new_coin.cpp:587-601 | checks, fees and transfers, wherever they stop: the ledger stays balanced and replayable, and every total moves by exactly what was done; a transaction that passes conserves the contract's tokens, but for the fees, if and only if the outputs add up to less than 2^256 |
| BatchChecks.SumsCompareWrapped | z_validator/z_validator/block_process/custom/process_new_coin.cpp:445-512 | an input of 1 and outputs of 2^256 + 1 in all are accepted |
| BatchChecks.InputsWithin | z_validator/z_validator/block_process/custom/process_new_coin.cpp:462-482 | the inputs together are no more than all tokens of the contract |
| TokenFlow.StepFlows | z_validator/z_validator/temp_data/balance_tracker.cpp:105-457 | an operation that goes through and loses nothing moves every wallet's total by its own transfers |
| TokenFlow.FlowMovesSupply | z_validator/z_validator/temp_data/balance_tracker.cpp:105-457 | in all, the tokens move by the credits less the debits |
| BatchChecks.NamedOnceLossless | z_validator/z_validator/block_process/custom/process_new_coin.cpp:462-465 | a batch that names no wallet twice loses nothing |
| BlockReplay.BlockBalances.AddBalance | z_validator/z_validator/temp_data/balance_tracker.cpp:547-569 | the balance is fetched once and grows by the amount; no other changes |
| BlockReplay.BlockBalances.RemoveBalance | z_validator/z_validator/temp_data/balance_tracker.cpp:571-600 | the balance shrinks by the amount, or a status says why not and every balance reads as before |
| BlockReplay.BlockBalances.ReplayAdds | z_validator/z_validator/proposer/proposer.cpp:54-77 | all additions of a record reach their wallets, in any order |
| BlockReplay.BlockBalances.ReplaySubs | z_validator/z_validator/proposer/proposer.cpp:79-98 | each subtraction is made, or leaves everything as it was; whether one failed |
| BlockReplay.BlockBalances.ReplayTxn | z_validator/z_validator/proposer/proposer.cpp:47-100 | one transaction: all additions, then the subtractions that can be paid, then its records are gone |
| BlockReplay.BlockBalances.StoreTempDatabase | z_validator/z_validator/temp_data/balance_tracker.cpp:602-613 | storing changes no balance as it is read |
| BlockReplay.BlockBalances.AddTempWalletBalance | z_validator/z_validator/proposer/proposer.cpp:44-103 | for any list of distinct transactions and any balances before: where every wallet ends, and that no ignored status is a failure if and only if every debit is covered |
| BlockReplay.StandIsNet | z_validator/z_validator/proposer/proposer.cpp:44-103 | a wallet ends with what is stored plus the net of the list plus what its failing debits did not take |
| BlockReplay.PaidIfCovered | z_validator/z_validator/proposer/proposer.cpp:79-98 | no debit of a wallet fails if and only if, whenever it is debited, it is stored or credited by then and the net so far is not negative; then it ends with the net of the list |
| BlockReplay.NetIsSum | z_validator/z_validator/proposer/proposer.cpp:44-103 | the net of a list does not depend on its order |
| RunReplay.NetIsAccounted | z_validator/z_validator/proposer/proposer.cpp:44-103 | the net of the transactions in processing order is what is accounted for them, with the placeholder's credits at the fee address |
| RunReplay.NetOfList | z_validator/z_validator/proposer/proposer.cpp:44-103 | the net of a list is the overlay's total after the first k transactions less what those of them moved that the list leaves out |
| RunReplay.ListBalances | z_validator/z_validator/proposer/proposer.cpp:44-103 | so if every debit of a wallet is covered, it ends with the overlay's total if and only if what is left out nets to nothing for it |
| RunReplay.FirstCovered | z_validator/z_validator/proposer/proposer.cpp:44-103 | in processing order and without gaps every debit is covered, and the net is the overlay's total |
| RunReplay.ProcessAndReplay | z_validator/z_validator/proposer/proposer.cpp:44-103 | processing transactions and replaying any list: whether a status was a failure, and every balance against the overlay |
| RunReplay.ReplayFirst | z_validator/z_validator/proposer/proposer.cpp:44-103 | replaying the first k transactions in processing order: no failure, and every wallet has its total after them |
| RunReplay.WrongOrder | z_validator/z_validator/proposer/pre_process.cpp:216-249 | v pays w, who pays x; replayed the other way round, w's debit fails and w keeps the token that x has too |
| RunReplay.Gap | z_validator/z_validator/proposer/proposer_utils.cpp:29-305 | replayed without the first payment, x has the token that v still has |
| RunReplay.TokenAppears | z_validator/z_validator/proposer/proposer.cpp:44-103 | both on the tracker's real records: the overlay holds one token in all, and each replay ends with two |
| TokenFees.FeeBook.SetTxnTokenFees | z_validator/z_validator/proposer/proposer.cpp:16-42 | one entry grows by the amount, all others stay |
| TokenFees.SetTokenFees | z_validator/z_validator/proposer/proposer.cpp:157-174 | the same for the accumulating map |
| TokenFees.Redirect | z_validator/z_validator/proposer/proposer.cpp:124-141 | the placeholder's entries are added to the fee address's |
| TokenFees.ListFees | z_validator/z_validator/proposer/proposer.cpp:143-154 | the block lists every address once, and under it every token once, with the accumulated amount |
| TokenFees.FeeBook.SetAllTokenFees | z_validator/z_validator/proposer/proposer.cpp:104-155 | per address and contract the block lists the sum over the given transactions, each counted once; their records are erased, no others |
| TokenFees.RedirectLosesNothing | z_validator/z_validator/proposer/proposer.cpp:124-141 | over all addresses a transaction pays what was recorded |
| Supply.InAllMoves | z_validator/z_validator/block_process/fees.cpp:160-237 | the sum over all wallets moves by the sum of the wallets' moves |
| Supply.TransfersMove | z_validator/z_validator/block_process/fees.cpp:160-237 | credits and debits move that sum by their difference |
| Supply.HeldIsWrapped | z_validator/z_validator/temp_data/balance_tracker.cpp:221-261 | a 256-bit total that takes in credits one by one is the plain total, wrapped around |
| Supply.InAllWrapped | z_validator/z_validator/temp_data/balance_tracker.cpp:221-261 | the sum of the 256-bit totals is the plain sum without what has wrapped around |
| Supply.NoOverflow | z_validator/z_validator/temp_data/balance_tracker.cpp:221-261 | while the sum over all wallets is below 2^256 nothing wraps around |
| Fees.BaseFeeIsSplit | z_validator/z_validator/block_process/fees.cpp:186-231 | a base fee of any size is split without loss; without wrap-around half goes to the validator and a quarter to the foundation |
| Fees.ContractFeeIsSplit | z_validator/z_validator/block_process/fees.cpp:196-237 | exactly when a contract's fee is split without loss, with 256-bit wrap-around |
| Fees.BelowHundred | z_validator/z_validator/block_process/fees.cpp:196-237 | below 100 percent nothing is lost |
| Fees.AtHundred | z_validator/z_validator/block_process/fees.cpp:196-237 | at 100 percent one unit is lost unless both shares are whole |
| Fees.LossAndGain | z_validator/z_validator/block_process/fees.cpp:196-237 | a fee of which a unit is lost; and one that leaves a fee address that held nothing with 2^256 - 1 tokens, and one that held one token with none |
| Fees.ProcessFees | z_validator/z_validator/block_process/fees.cpp:152-259 | refused and unchanged if and only if the payer is to be debited here and cannot afford it; otherwise exactly the payer's debit and the receivers' shares, also in the fee records |
| Fees.Distribute | z_validator/z_validator/block_process/fees.cpp:206-237 | every receiver with a percentage gets its share |
| Fees.BaseFeeConserves | z_validator/z_validator/block_process/fees.cpp:152-259 | a paid base fee leaves the sum over all wallets of every contract unchanged, in 256 bits, if that sum is below 2^256 |
| Fees.CreditsOf | z_validator/z_validator/block_process/fees.cpp:196-237 | who receives which share of a contract's fee |
| Fees.BaseCreditsOf | z_validator/z_validator/block_process/fees.cpp:186-231 | of a base fee half goes to the current validator, or the fee address, a quarter to the treasury, and the rest is burnt |
| Fees.ReportedSum | z_validator/z_validator/block_process/fees.cpp:239-256 | base fees charged one after the other are reported as their 256-bit sum |
| Fees.ContractFeeConserves | z_validator/z_validator/block_process/fees.cpp:152-259 | a paid contract fee does if and only if what its split gains or loses wraps around; if the sum and the shares stay below 2^256, if and only if the shares fit the fee, or the fee address holds what they take too much when it is credited; with nothing for the fee address, if and only if the shares use the fee up |
| Fees.FeeMoves | z_validator/z_validator/block_process/fees.cpp:152-259 | for any totals: the plain sum moves by what the split gains or loses, and the 256-bit sum differs from it by what wraps around |
| Fees.SettledHeld | z_validator/z_validator/block_process/fees.cpp:152-259 | every wallet ends with its 256-bit total after the debit and the credits one by one |
| Fees.ContractSplit | z_validator/z_validator/block_process/fees.cpp:196-237 | the split amounts of a contract's fee add up to the fee, to the shares, or to 2^256 more than the fee |
| Fees.OverflowOf | z_validator/z_validator/block_process/fees.cpp:206-237 | where the shares exceed the fee, the fee address's total wraps around if and only if it holds the excess |
| Fees.PartsTotal | z_validator/z_validator/block_process/fees.cpp:289-298 | the signers' parts add up to the fee, the remainder going to the last |
| Fees.ProcessInterfaceFees | z_validator/z_validator/block_process/fees.cpp:260-320 | all signers are debited and the interface credited, or the first signer who does not cover its part, seen from the totals before the call, stops it with the earlier debits standing |
| Fees.InterfaceFeeConserves | z_validator/z_validator/block_process/fees.cpp:260-320 | the call keeps the sum over all wallets if and only if every signer covers its part, or the first does not, or the fee is smaller than the number of signers; otherwise it takes the parts of those who paid |
| Fees.PayableIfCovered | z_validator/z_validator/block_process/fees.cpp:289-310 | after the parts of the signers before it, a signer can pay if and only if its total before the call covers all parts up to its own of its wallet |
| Fees.HalfPaid | z_validator/z_validator/block_process/fees.cpp:260-320 | of two signers the first holds one token and the second has no record: a fee of two takes that token from everybody |
| Votes.TallyCovers | z_validator/z_validator/temp_data/balance_tracker.cpp:37-93 | a tally covers each of its voters' balances, so no unsigned subtraction underflows |
| Votes.OneWalletMoves | z_validator/z_validator/temp_data/balance_tracker.cpp:20-98 | when one wallet's votes or balances change, a recount changes by its weight |
| Votes.RemoveVotes | z_validator/z_validator/txn_batch/batch_gov.cpp:306-350 | takes the balance from the side of the earlier vote and from no other |
| Votes.Governance.AdjustProposalVotes | z_validator/z_validator/temp_data/balance_tracker.cpp:20-98 | every proposal the wallet voted on follows its balance on the side of its vote |
| Votes.Governance.AddBalance | z_validator/z_validator/temp_data/balance_tracker.cpp:547-569 | a credit keeps every tally equal to the recount |
| Votes.Governance.RemoveBalance | z_validator/z_validator/temp_data/balance_tracker.cpp:571-600 | a debit does, and a refused one changes nothing |
| Votes.Governance.Something | z_validator/z_validator/txn_batch/batch_gov.cpp:351-464 | casting or changing a vote does; without a balance record no vote is left, and repeating one changes nothing |
| Votes.BalanceMoves | z_validator/z_validator/temp_data/balance_tracker.cpp:20-98 | balance and tallies moved together keep the law |
| Votes.VoteMoves | z_validator/z_validator/txn_batch/batch_gov.cpp:351-464 | moving a balance from the old side to the new one keeps the law |
| Votes.CastFollows | z_validator/z_validator/txn_batch/batch_gov.cpp:391-463 | after a message the recorded vote is what the wallet's last message that found a balance record says |
| Votes.FollowedIsCounted | z_validator/z_validator/txn_batch/batch_gov.cpp:391-463 | then yes, no and the options are the sums of the balances of those who support them |
| Votes.Run | z_validator/z_validator/txn_batch/batch_gov.cpp:351-464 | after any votes and balance moves in any order every tally equals the recount; yes, no and each option are the balances of the wallets whose last message that found a balance record said so |
| RestrictedKeys.InheritedIdMatches | z_validator/z_validator/restricted/restricted_keys.cpp:102-109 | an inherited id is a `$`, three to twenty capital letters, a `+` and four digits |
| RestrictedKeys.TokenPermissions | z_validator/z_validator/restricted/restricted_keys.cpp:53-92 | a key may transfer, mint or set rates if and only if a contract in reach lists it with that permission |
| RestrictedKeys.ContractPermissions | z_validator/z_validator/restricted/restricted_keys.cpp:53-92 | the same for updating, expenses, compliance and revoking |
| RestrictedKeys.GovernancePermissions | z_validator/z_validator/restricted/restricted_keys.cpp:53-92 | the same for quashing, voting and proposing |
| RestrictedKeys.KeySearch.CheckDelegatedKeys | z_validator/z_validator/restricted/restricted_keys.cpp:93-135 | ends on every graph; finds a granting key, or leaves only finished contracts behind |
| RestrictedKeys.NothingGranted | z_validator/z_validator/restricted/restricted_keys.cpp:93-135 | when all contracts looked at are finished, no inheritance chain leads to the key |
| RestrictedKeys.FindKey | z_validator/z_validator/restricted/restricted_keys.cpp:93-135 | true if and only if some contract reachable through inherited ids lists the key with permission; the key, delay and weight copied out belong to such a listing |
| RestrictedKeys.CheckRestrictedKeys | z_validator/z_validator/restricted/restricted_keys.cpp:164-218 | the status as a function of reachability, and the second permission check never refuses |
| Nonces.VerdictInTurn | z_validator/z_validator/block_process/process_txn.cpp:196-243 | whoever uses up nonces uses its wallets' next ones; only a charged registration is refused after that |
| Nonces.UsedNoncesFollow | z_validator/z_validator/block_process/custom/process_registration.cpp:208-271 | in any run all nonces used up for a wallet go on one by one if and only if nothing was misfiled under it out of turn |
| Nonces.AcceptedNoncesFollow | z_validator/z_validator/block_process/custom/process_registration.cpp:222-271 | then the accepted ones do if and only if no acceptance of the wallet comes after a refused registration of it |
| Nonces.RegistrationLeavesGap | z_validator/z_validator/block_process/custom/process_registration.cpp:249-259 | a registration with nonce 1 that unbonds an unknown validator, then a coin transaction with nonce 2: accepted is only nonce 2 |
| Nonces.MisfiledSetsBack | z_validator/z_validator/block_process/custom/process_registration.cpp:239-245 | a registration whose keys differ, with nonce 1, makes nonce 2 the next one of a wallet that had used five |
| NonceOrder.AcceptNext | z_validator/z_validator/block_process/process_txn.cpp:196-243 | accepting a transaction in turn keeps the accepted nonces consecutive |
| NonceOrder.TurnIsOrder | z_validator/z_validator/proposer/reg_process.cpp:151-180 | in the first pass over a complete batch a transaction has its wallet's next nonce if and only if the wallet's transactions up to it stand in ascending order, and never a used one |
| NonceOrder.LowestIsNext | z_validator/z_validator/proposer/reg_process.cpp:182-192 | in the second pass the lowest waiting nonce is its wallet's next one if and only if no mint below it was dropped |
| NonceOrder.AllPlaced | z_validator/z_validator/proposer/reg_process.cpp:137-220 | in the end exactly the transactions above no dropped mint are accepted: all of them if and only if every mint stands in order |
| NonceOrder.MintAhead | z_validator/z_validator/block_process/custom/process_mint.cpp:126-134 | a complete batch of a mint with nonce 2 and an item mint with nonce 1 whose mint is not in order |
| NonceOrder.OrderNonceTxns | z_validator/z_validator/proposer/reg_process.cpp:15-135 | exactly the listed kinds, in ascending order of their nonces |
| PendingTxns.Processor.CheckNonce | z_validator/z_validator/block_process/process_txn.cpp:10-54 | accepts exactly the next nonce of a wallet, and tells a nonce that comes too early from a used one |
| PendingTxns.Processor.ProcessGeneric | z_validator/z_validator/block_process/process_txn.cpp:196-243 | the general template: a transaction whose fees are charged uses up its nonce; any other changes nothing |
| PendingTxns.Processor.ProcessCoin | z_validator/z_validator/block_process/custom/process_new_coin.cpp:657-798 | every signer's nonce is checked before any is used up |
| PendingTxns.Processor.ProcessMint | z_validator/z_validator/block_process/custom/process_mint.cpp:121-172 | every failing nonce check makes the mint faulty |
| PendingTxns.Processor.ProcessChecked | z_validator/z_validator/block_process/custom/process_heartbeat.cpp:44-82 | heartbeats, and expense ratios (process_expense.cpp:94-144): the nonce is checked for timed transactions too |
| PendingTxns.Processor.ProcessRequiredVersion | z_validator/z_validator/block_process/custom/process_required_version.cpp:14-48 | only governance passes, every other failure is faulty, and no nonce is used up |
| PendingTxns.Processor.ProcessRegistration | z_validator/z_validator/block_process/custom/process_registration.cpp:185-271 | once charged the nonce is used up whatever follows, under the base key's wallet if the keys differ |
| PendingTxns.Processor.ProcessTransaction | z_validator/z_validator/proposer/proposer_utils.cpp:29-305 | duplicates are refused, each kind goes to its own processing, an accepted transaction joins the block |
| PendingTxns.RunMore | z_validator/z_validator/proposer/reg_process.cpp:151-192 | whatever is processed next, the run stays one in which nonces are used in turn, no hash is accepted twice, and all but acceptances are refused registrations |
| PendingTxns.SimpleVerdict | z_validator/z_validator/block_process/process_txn.cpp:10-54 | what a nonce that is next, or ahead, leads to for each kind |
| PendingTxns.FirstStep | z_validator/z_validator/proposer/reg_process.cpp:151-180 | in the first pass a transaction of a complete batch is accepted if it stands in order; otherwise a mint is faulty and any other is kept for the second pass |
| PendingTxns.SecondStep | z_validator/z_validator/proposer/reg_process.cpp:184-192 | in the second pass exactly the acceptable transactions are accepted |
| PendingTxns.PassingRegistrations | z_validator/z_validator/proposer/reg_process.cpp:137-220 | a wallet has consecutive accepted nonces, whatever else is in the batch, if its registrations there, or those under its base key, have equal keys, are known or register, and are not refused for the interface fee or the last checks |
| PendingTxns.RunIsOrderly | z_validator/z_validator/proposer/reg_process.cpp:137-220 | of every run: accepted governance transactions are pending ones; and for every wallet exactly when its used nonces, and exactly when its accepted nonces, go on one by one |
| PendingTxns.WithoutMints | z_validator/z_validator/proposer/reg_process.cpp:137-220 | a complete batch without mints is accepted as a whole, in any input order |
| PendingTxns.MintIsDropped | z_validator/z_validator/proposer/reg_process.cpp:137-220 | of the batch of NonceOrder.MintAhead the item mint is accepted and the mint is not |
| PendingTxns.Processor.FirstPass | z_validator/z_validator/proposer/reg_process.cpp:151-180 | the first pass, value by value, with the status of the value before when one does not parse |
| PendingTxns.Processor.ProcessTxns | z_validator/z_validator/proposer/reg_process.cpp:137-220 | any batch: no hash is accepted twice, nonces are used and accepted as in RunIsOrderly, every key is removed, and the run succeeds if something was accepted or the block has proposal results, also earlier ones; a complete batch: accepted are exactly the transactions of AllPlaced, and every wallet's next nonce follows those it signed |
| Merkle.PairUp | z_validator/z_validator/crypto/merkle.cpp:151-171 | each entry is the two children of its node, or the only child twice |
| Merkle.MerkleRoot | z_validator/z_validator/crypto/merkle.cpp:139-183 | the level loop ends with the root of the recursively defined tree, and a fixed text for no transactions |
| Merkle.LevelCollision | z_validator/z_validator/crypto/merkle.cpp:147-180 | different leaves below two equal levels yield a collision of the hash function |
| Merkle.RootBinds | z_validator/z_validator/crypto/merkle.cpp:139-183 | equally long lists with the same root are the same, or exhibit a collision |
| Merkle.RootRepeated | z_validator/z_validator/crypto/merkle.cpp:151-171 | below the root, where a level has an odd number of full nodes, appending the last node's leaves once more does not change the root |
| Merkle.NodeOfLeaves | z_validator/z_validator/crypto/merkle.cpp:147-180 | a node with its full number of leaves is determined by them, wherever they stand |
| Merkle.RootPadded | z_validator/z_validator/crypto/merkle.cpp:139-183 | the root of any list is the root of the perfect tree over the list filled up by such repetitions |
| Merkle.RootBindsPadded | z_validator/z_validator/crypto/merkle.cpp:139-183 | lists of any lengths with trees of one height: the same root if and only if they fill up to the same list, or a collision is exhibited |
| Merkle.RootOfHalves | z_validator/z_validator/crypto/merkle.cpp:158-170 | the root of a full tree is the hash of the roots of its left and its right half, in this order |
| Selection.Draw | z_validator/z_validator/proposer/select_validators.cpp:188-205 | a draw selects the first unselected candidate from the one on whose interval of the running sum holds it, or none |
| Selection.HitsArePicks | z_validator/z_validator/proposer/select_validators.cpp:191-203 | the first eligible candidate of the loop is the one picked by its interval |
| Selection.WeightDraws | z_validator/z_validator/proposer/select_validators.cpp:176-186 | of the draws from 1 to the sum of the weights, as many fall into a candidate's interval as it has weight |
| Selection.LowDrawSelects | z_validator/z_validator/proposer/select_validators.cpp:188-205 | a draw up to the first candidate's weight always finds an unselected candidate |
| Selection.SelectValidators | z_validator/z_validator/proposer/select_validators.cpp:186-206 | every draw picks by its interval, so the first selected is candidate k if and only if the first draw lies in k's interval; the selected addresses are distinct candidates in the order of the draws; a finished loop selected every one; enough low draws finish it, and a first candidate without weight prevents it |

## Left out

- BLAKE3's mixing rounds, message schedule, CPU detection and SIMD back ends: compression is two unrelated parameters, one that yields the eight words of a chaining value and one that yields the 64 bytes of an output block, and the SIMD degree is any power of two within the compile-time bound.
- Pointers and lengths of C are sequences and array slices; sizes are unbounded, with the total input below 2^64 bytes.
- Sizes at which `size*138` overflows `int` are excluded from both conversions; the duplicated overloads for strings and vectors are modelled once.
- PublicKeys.PublicKeyRoundTrip: assumes a recognised key type, a full-length key and a prefix that ends in `_`, because decoding searches for the last `_`.
- The stores (RocksDB, LevelDB), protobuf messages, gRPC, WasmEdge, signatures, logging and file backup: stores are maps, messages are datatypes, a store write always succeeds.
- 256-bit wrap-around of ledger records, fee records and tallies: they are natural numbers, and so are the totals of the overlay, of which `Supply` and `Fees` say what they are in 256 bits. `Stake` proves that its arithmetic stays in range.
- Stake.ArchiveBalances: assumes that all stakes and caps times 100000 stay below 2^256 and that qualified contracts have a positive denomination to divide by.
- remove_txn_balance's second half, which adjusts wallet totals: it looks them up under the Base58 key of the record while totals are stored under the raw address; the model only deletes the two records, with the two kinds of keys assumed disjoint.
- The overloads of the debit for allowances, which differ only in where the wallet addresses come from.
- RunReplay.ProcessAndReplay: assumes that hashes differ, that each transaction's operations come one after the other, that batches lose nothing, as the checks in BatchChecks see to it, and that the placeholder is never debited.
- Contract ids start with their only `$`; keys of other shapes are outside the ledger's law.
- BlockReplay.BlockBalances.AddTempWalletBalance: assumes that the listed hashes differ.
- BatchChecks.ValidateWallets: which status a refusal reports, and the inputs of allowances, are left out; compliance, the safe-send flag, the release schedule and the fees charged are given.
- BlockReplay leaves the adjustment of proposal votes inside `add_balance` and `remove_balance` to `Votes`.
- Fees.ProcessInterfaceFees: the interface fee's contract is a contract id or empty; the variant for a single sender is the case of one signer.
- Fee amounts from bytes and currency rates, allowed fee contracts and qualification.
- Votes: proposals with one voting instrument; a second instrument of the same vote is not counted by the program, since the first one already recorded the vote. Balances and proposals are read and written in one current state; delegation and the temporary copies of proposals are not modelled.
- RestrictedKeys.FindKey: assumes that contracts are stored under their own ids and that the contract at hand is not a different version of a stored one; the ledger of delayed transactions, and coin transactions with several senders, are not modelled.
- PendingTxns.Processor.ProcessCoin: allowance addresses with their own nonces, and coin transactions authorised by governance, are left out.
- PendingTxns.Processor.ProcessTxns: what an attempt comes to apart from its nonce (fees, interface fee, the last checks of a registration) is arbitrary for each attempt. Allowances, coin transactions authorised by governance, the transactions a smart contract emits, and the outcome of proposal results are left out; so is what `timed` runs say about nonces, since most kinds do not check them.
- The sort in NonceOrder is any sort by nonce; equal nonces may come in any order.
- Maps are walked in any order, where the program walks them in the order of their keys.
- Selection.SelectValidators: the random generator is an arbitrary sequence of draws of at least 1, the candidates come already sorted, and the look-ups of the selected validators' records are left out.
- Merkle: the hash function is a parameter; collecting the hashes from the twenty-five lists of a block is left out.
- Calendar code, wall-clock loops, thread pools, the rate limiter, hex conversion, compliance checks and smart contract host functions.
