# Verification of the chain engine and the message flood

This project models two parts of the repository in Dafny and proves what they are for.

**The chain** (`internal/chain`). A ledger of accounts with a finite reward pool is changed by ten kinds of
transactions; a rule decides which block may follow which chain; a producer builds blocks that this rule has to let
through; a store, a mempool and burn tickets hang on it. `Ledger.dfy` gives every transaction and every block as a
function on ledger values. The class `State` works in place, as the program does, and every method of it is proved
equal to that function. The class `Engine` holds a `Store`, a `State` and a `Mempool` (a queue over one backing
array), together with the ghost sequence of accepted blocks; its invariant says that store and ledger are functions of
that sequence, which is what "replaying" means. The laws of the ledger are then proved over all chains.

**The flood** (`internal/node`, `internal/dedup`, `internal/protocol`, `internal/p2p`, `internal/pow`). A packet has a
hand-written signed layout, here paired with a parser. A node's reaction to a packet is a function; the class `Node`
carries it out over a real ring of 65536 keys. The mesh is a state machine over any finite set of nodes: originate,
deliver, forward now or later, lose, duplicate. Safety, termination and coverage are proved over all its runs.

Go's integers are modelled with their width: `uint64` additions wrap, `time.Duration` arithmetic wraps or saturates as
in Go, `int32(x)` truncates. Strings and byte slices are byte sequences. Hashes, signatures, base64 and JSON are
functions about which nothing is assumed except what a theorem names: `Sound` (decoding undoes encoding, a signature
verifies under its own key), `JsonInjective`, `TxTextInjective`, and `NoCollision` on the finite set of inputs that were in fact hashed (a
hash cannot be injective on all inputs). Clock readings, random nonces and the answers of components outside the model
are parameters.

## Where the code and its description differ

- The comment at `internal/chain/state.go:325` says that an unstake fee comes out of the unstaked amount. The second
  branch lowers the amount before it leaves the stake and credits the fee all the same, so it creates the fee. The
  supply law is proved with that error term, and without one for the commented rule.
- Slot times need not fit a `time.Duration` for a proposal to be accepted: producer and validator wrap in the same way.
- A coinbase needs no signature, so one can reach the mempool and make a node reject its own block. So can a body that
  is too large, because up to 200 transactions are taken whatever their size.
- `TxCount` is covered by the header hash but compared with nothing, and the Merkle root does not commit to the number
  of transactions: a tip hash does not determine the blocks under it.
- A block is checked against the key in its own header, and that key is not compared with the proposer; transactions
  and packets do make that comparison.
- A burn ticket may be signed by anybody, and the transaction it names may be any pending one.
- A node trusts clock samples of authenticated packets (`internal/node/node.go:678`), but neither the clock sample nor
  the difficulty hint is covered by signature or hashes.
- The 500 ms clock check also admits timestamps so far ahead that `time.Sub` saturates.
- Key and clock floods are not recorded in their sender's own filter, unlike chat packets, and may pass through their
  sender once more.
- The halvings of the block reward never take effect: the pool is empty at height 84,000.

## Files

| part | files |
|---|---|
| bytes, order, entities | `Base`, `ByteOrder`, `Types` |
| ledger | `Ledger`, `State`, `Effects`, `Authority`, `Supply`, `Conservation`, `SupplyModulo`, `Nonces`, `Stutter`, `Commitment` |
| consensus | `Election`, `Fairness`, `Merkle`, `Consensus`, `Chain`, `Verdicts`, `Bodies` |
| engine | `Store`, `Mempool`, `Proposing`, `Acceptance`, `Production`, `Engine`, `Reopening`, `Ticket`, `Evidence`, `Witnesses` |
| messages | `Ring`, `Packet`, `Pow`, `Frame`, `Node`, `Flood`, `Coverage`, `Reach` |

`dafny verify dfyconfig.toml` checks all of it.

## Model

| member | source | states |
|---|---|---|
| States.State.constructor | internal/chain/state.go:25-31 | a new state is the empty ledger with the whole reward pool |
| States.State.Clone | internal/chain/state.go:34-49 | the copy is a fresh object with the same ledger, whatever order the account map is walked in, but without the fees collected so far |
| States.State.ComputeRoot | internal/chain/state.go:52-68 | the root computed from sorted keys is the hex hash of the one encoding of the ledger, independent of map order |
| States.State.GetAccount | internal/chain/state.go:71-78 | an unknown id reads as a blank account and is not created |
| States.State.EnsureAccount | internal/chain/state.go:137-144 | creates a blank account if there is none and changes nothing else |
| States.State.ApplyCoinbase | internal/chain/state.go:146-169 | whole new ledger and error of a coinbase, failures included |
| States.State.ApplyTransfer | internal/chain/state.go:171-200 | whole new ledger and error of a transfer; a transfer to oneself included, where the receiver is looked up after the sender was charged |
| States.State.ApplyBurn | internal/chain/state.go:202-238 | whole new ledger and error of a burn, the burn set included |
| States.State.ApplyRegister | internal/chain/state.go:240-271 | whole new ledger and error of a registration |
| States.State.ApplyStake | internal/chain/state.go:273-304 | whole new ledger and error of a stake |
| States.State.ApplyUnstake | internal/chain/state.go:306-341 | whole new ledger and error of an unstake, with the second fee branch as it is written |
| States.State.ApplyActivate | internal/chain/state.go:343-362 | whole new ledger and error of an activation |
| States.State.ApplyTxLocked | internal/chain/state.go:97-135 | each kind goes to its handler; kinds without one fail and change nothing |
| States.State.ApplyTx | internal/chain/state.go:88-95 | whole new ledger and error of any transaction; one that needs a signature and does not carry its sender's is refused as such and changes nothing |
| States.State.ApplyAll | internal/chain/state.go:370-377 | the loop over a body equals the fold of single transactions and stops at the first failure, which it names |
| States.State.ApplyBlock | internal/chain/state.go:365-391 | in place or on a value, a block leads to the same ledger: body, fees, height, tip |
| States.State.ActiveValidators | internal/chain/pos.go:107-119 | the ascending list of active accounts with their stakes, whatever the map order |
| States.State.SelectProposer | internal/chain/pos.go:18-43 | the elected validator is the one whose stretch of cumulative stake holds the second word of SHA-256(tip hash, slot) modulo the total stake |
| States.State.MayPropose | internal/chain/pos.go:57-71 | anybody while nobody is elected, then the elected node only; never the empty id |
| Ledgers.SenderAnatomy | internal/chain/state.go:171-362 | the six sender transactions are one scheme: early error, account lookup, nonce, charge, aftermath |
| Ledgers.ReplayKeepsKeys | internal/chain/state.go:137-144 | over every replayed chain each account is stored under its own id |
| Effects.Bystanders | internal/chain/state.go:97-135 | a transaction leaves every account but its sender's and its receiver's untouched, and never moves height or tip |
| Effects.TransferEffect | internal/chain/state.go:171-200 | a transfer succeeds if and only if it is signed by its sender, in nonce order, within the supply and covered; the new ledger, transfers to oneself included: amount and fee move, the nonce advances, nothing else changes |
| Effects.BurnEffect | internal/chain/state.go:202-238 | exact condition with the price by message type, and the new ledger: balance, burned counter, nonce, fee and evidence |
| Effects.RegisterEffect | internal/chain/state.go:240-271 | exact condition including the free bootstrap registrations, and the new ledger: keys are set, the first registration height is kept |
| Effects.StakeEffect | internal/chain/state.go:273-304 | exact condition and the new ledger: the amount moves from balance to stake |
| Effects.UnstakeEffect | internal/chain/state.go:306-341 | exact condition in both fee branches and the new ledger; a validator is deactivated exactly when nothing stays staked |
| Effects.StakeThenUnstake | internal/chain/state.go:273-341 | staking and unstaking the same amount costs exactly the two fees, whichever way the second is paid; the stake is restored exactly if the balance covered the second fee, otherwise that fee stays staked |
| Effects.ActivateEffect | internal/chain/state.go:343-362 | exact condition (bootstrap or minimum stake) and the new ledger: a key that is brought is written, balances and fees do not move |
| Effects.CoinbaseEffect | internal/chain/state.go:146-169 | a coinbase needs no signature and succeeds exactly when it asks for min(schedule, pool); the new ledger, where nothing is due included |
| Effects.IdleEffect | internal/chain/state.go:97-135 | alerts always succeed, network parameters only in genesis and only with this network's values, genesis claims and unknown kinds never; none of them changes anything |
| Effects.RefusedEarly | internal/chain/state.go:88-362 | which refusals are for the signature, the text, a missing reference, a zero amount, the nonce: each exactly when |
| Effects.RefusedLate | internal/chain/state.go:171-362 | a signed transaction in nonce order is refused for an amount beyond the supply, then for overflow, then for want of balance or stake |
| Effects.FeesReachProposer | internal/chain/state.go:378-390 | the fees of a block all go to its proposer, or without one to its miner, and to nobody else; to nobody at all if that is "network-genesis" or empty |
| Effects.StrangersCommute | internal/chain/state.go:97-362 | two sender transactions without a party in common have the same outcomes in either order and lead to equivalent ledgers |
| Types.VerifiesIff | internal/chain/types.go:174-194 | alerts, coinbases and network parameters need no signature; anything else needs a 32-byte key its sender's id is derived from and a good signature of its six signed fields under that key |
| Authority.OnlySigned | internal/chain/types.go:174-194 | every sender transaction that succeeds carries such a key and such a signature |
| Authority.TxSpares | internal/chain/state.go:97-362 | a transaction of somebody else changes at most an account's balance, and lowers it only where 2^64 units exist |
| Authority.MovedBySignature | internal/chain/state.go:88-391 | along every accepted chain, whatever happens to an account other than a credit -- a rise of the nonce, a fall of the balance, a change of stake, keys or standing -- was signed for in between, with a key that the account's id is derived from |
| Authority.NonceCountsSignatures | internal/chain/state.go:171-362 | along every chain an account's nonce counts (modulo 2^64) the transactions it sent, each signed with a key of its id |
| Authority.NeverSigned | internal/chain/state.go:137-391 | an id that nobody signed for has an account that is blank but for what it was credited |
| Supply.SupplyLaw | internal/chain/state.go:146-391 | along every chain of applied blocks: pool + balances + stakes + burned + forfeited fees = 4,200,000 + the fees charged by the second unstake branch, without wrap-around while that sum fits 64 bits |
| Conservation.AcceptedSupply | internal/chain/state.go:146-391 | on every accepted chain whose proposers are not "network-genesis", as long as the sum is below 2^64: pool and accounts hold 4,200,000 plus exactly the second-branch fees, and 4,200,000 if and only if no unstake took that branch |
| SupplyModulo.AcceptedSupplyModulo | internal/chain/state.go:146-391 | without that bound: pool and accounts are congruent to 4,200,000 plus the second-branch fees modulo 2^64 |
| SupplyModulo.LawModulo | internal/chain/state.go:365-391 | the same congruence, forfeited fees included, on every chain whose blocks all apply, under the rule as written and under the commented one |
| Conservation.NothingForfeited | internal/chain/state.go:378-386 | on such a chain no block's fees are lost |
| Supply.SupplyConstantIff | internal/chain/state.go:326-336 | without forfeited fees, and while pool and drift are together below 2^64, the supply is constant if and only if no unstake on the chain took the second branch |
| Supply.UnstakeConservesIff | internal/chain/state.go:318-340 | one unstake conserves its sender's worth and the fee exactly outside the second branch; inside it creates exactly the fee |
| Supply.UnstakeCanCreate | internal/chain/state.go:326-336 | an account and a request on which the unstake step creates one unit |
| Witnesses.AcceptedChainCreates | internal/chain/state.go:306-341 | an accepted chain on which the supply is 4,200,001: the first block of an ordinary node that stakes its reward and takes it back, for every such node and clock, within the size limit |
| Supply.CommentedRuleConserves | internal/chain/state.go:325 | under the rule the comment describes, every chain conserves the 4,200,000 units |
| Supply.WrittenIsReplay | internal/chain/state.go:365-391 | the rule-parametric fold used for both laws is, for the code as written, the ledger's own fold |
| Supply.SupplyLawUnder | internal/chain/state.go:365-391 | the supply law under either rule while the sum is below 2^64 |
| Stutter.FailureIsStutter | internal/chain/state.go:137-362 | a rejected transaction changes the ledger by at most its sender's blank account |
| Stutter.ApplyTxRespects | internal/chain/state.go:88-362 | on ledgers that differ only in blank accounts every transaction has the same outcome and keeps them so |
| Stutter.KeptApplies | internal/chain/engine.go:428-460 | what was filtered on the dirty clone applies in order, without error, on any equivalent ledger |
| Stutter.KeptWasOffered | internal/chain/engine.go:435-440 | the filter invents nothing |
| Stutter.BodyAppliesIff | internal/chain/state.go:370-377 | a body applies if and only if each transaction succeeds on the ledger that the earlier ones lead to |
| Stutter.FirstFailure | internal/chain/state.go:370-377 | a body fails with the index and the reason of the first transaction that does not succeed there |
| Nonces.ApplyTxNonce | internal/chain/state.go:171-362 | an applied transaction carries its sender's expected nonce and moves it by one; no transaction moves another's |
| Nonces.ChainIsNumbered | internal/chain/state.go:171-362 | along every chain each sender's transactions carry nonces 0, 1, 2, ... and the account's nonce is their count |
| Nonces.NoReplay | internal/chain/state.go:171-362 | no (sender, nonce) pair is applied twice, within a block or across blocks |
| Commitment.HashAccounts | internal/chain/state.go:60-66 | the digest loop computes the concatenation of account digests in key order |
| Commitment.RootIgnoresTip | internal/chain/state.go:52-68 | the root does not depend on the tip, so sealing a header cannot change the root it carries |
| Commitment.RootText | internal/chain/state.go:52-68 | the hashed text byte by byte: labels, pool and height in decimal, and one 32-byte digest for each account in ascending order of id |
| Commitment.MaterialUnique | internal/chain/state.go:52-68 | the hashed text determines pool, height and digest list |
| Commitment.RootCommits | internal/chain/state.go:52-68 | equal roots mean equal pool, height and accounts, unless one of the hashed inputs collided |
| Election.WalkStakes | internal/chain/pos.go:34-42 | the walk returns what the recursive walk from position 0 returns |
| Election.SelectFrom | internal/chain/pos.go:18-43 | the loops compute the specified election; with stake, it walks to the second word of SHA-256(tip hash, slot) modulo the total; nobody is elected from an empty list |
| Election.ListValidators | internal/chain/pos.go:107-119 | collecting and sorting yields the unique ascending listing of active accounts |
| Election.PickFindsStretch | internal/chain/pos.go:34-42 | the walk stops at the validator whose stretch of cumulative stake holds the residue; the fallback return is unreachable |
| Election.ElectionIsProportional | internal/chain/pos.go:18-43 | exactly stake-many residues elect a validator, hence none elects one without stake |
| Election.WordsAreSpread | internal/chain/pos.go:34-42 | of the 2^64 seed words, a validator is elected by its stake times their quotient by the total stake, plus one for each residue of its stretch below the remainder: between stake times the quotient rounded down and rounded up |
| Election.ElectedHasStake | internal/chain/pos.go:34-42 | whoever the walk elects has stake |
| Election.ElectedByWord | internal/chain/pos.go:18-55 | with stake, a validator is elected exactly if the second seed word modulo the total stake falls into its stretch, that is, exactly by the words that WordsAreSpread counts |
| Election.ElectedByPosition | internal/chain/pos.go:27-32 | without stake, the validator at the position of the first seed word modulo their number is elected; each position has the same number of the 2^64 words, or one more |
| Election.ElectedIsActive | internal/chain/pos.go:18-43 | whoever is elected is active; nobody is elected if and only if no account is active (unless one without an id is) |
| Election.ValidatorsAreActive | internal/chain/pos.go:107-119 | the validators are exactly the active accounts with their stakes, in ascending order |
| Election.MayProposeIff | internal/chain/pos.go:57-71 | a node may propose exactly if it has an id and either no account is active or it is the one elected |
| ByteOrder.LessIff | internal/chain/pos.go:117 | the order of ids is the lexicographic order of their bytes |
| Fairness.ChainElectionIsProportional | internal/chain/pos.go:18-43 | on every chain within the supply law the stakes cannot overflow, so the election there is exactly proportional |
| Types.ComputeBlockReward | internal/chain/types.go:284-297 | the halving loop computes the four-interval schedule |
| Types.RewardSchedule | internal/chain/types.go:284-297 | nothing at genesis, 50 for 210,240 blocks, halved with every interval, nothing after four |
| Types.SlotsFromGenesis | internal/chain/types.go:322-332 | the slot number counts ten-minute slots from genesis; 0 before it, and saturated 292 years after it |
| Types.BurnPrices | internal/chain/types.go:300-313 | 2 for a direct message, 10 for a delayed one, 5 for a broadcast, 20 for an alert, 10 for anything else |
| Types.SameIdSameTx | internal/chain/types.go:197-200 | transactions with the same id are equal in all fields and the signature, barring a collision |
| Types.SlotContainsTime | internal/chain/types.go:322-332 | the slot of an instant starts at or before it and ends after it, while the offset fits a Duration |
| Merkle.NextLevel | internal/chain/merkle.go:18-30 | one round turns the nodes of one height into those of the next |
| Merkle.MerkleRoot | internal/chain/merkle.go:9-32 | the level loop terminates and computes the root of a recursively defined tree |
| Merkle.RootByRounds | internal/chain/merkle.go:9-32 | the root of nothing, of one id, and the step that hashes neighbours (the last one with itself if alone): three equations that determine it |
| Merkle.RootCommits | internal/chain/merkle.go:9-41 | equal roots of lists of the same length mean equal lists, barring a collision |
| Merkle.RootIgnoresRepeatedLast | internal/chain/merkle.go:9-32 | repeating the last id of an odd list of at least three keeps the root |
| Merkle.RootIgnoresRepetition | internal/chain/merkle.go:18-30 | wherever a level of the tree is odd and has at least three full nodes, repeating the ids under its last node keeps the root: the length is not committed to |
| Engines.BuildGenesis | internal/chain/genesis.go:20-62 | builds the genesis block with the root of the ledger it leads to |
| Engines.ValidateMainnetGenesis | internal/chain/genesis.go:94-123 | accepts exactly blocks with height 0 and genesis' header hash, state root and Merkle root |
| Consensus.GenesisApplies | internal/chain/genesis.go:20-62 | genesis applies, changes nothing but the tip, and carries the root of its own replay |
| Consensus.ValidateCoinbase | internal/chain/consensus.go:60-93 | the counting loop accepts exactly blocks whose coinbase, if any, is the first transaction, is present when a reward is due, is within the schedule and pays the proposer |
| Engines.ValidateBlock | internal/chain/consensus.go:9-58 | the first failing check decides the error, none fails exactly for valid successors of the tip; whatever passes is signed under the key it carries and lies in its slot's window |
| Chain.ExtendFacts | internal/chain/engine.go:307-350 | an accepted block is within the size limit, commits to its body, links to the tip, is one higher, in order and in its slot's window, signed, from an allowed proposer, with a proper coinbase, and carries the root of its result |
| Verdicts.VerdictOf | internal/chain/engine.go:307-333 | the verdict on every block against every tip, with each check written out on the header and the ledger, in the order in which they decide |
| Verdicts.ExtendIff | internal/chain/consensus.go:9-93 | a block extends a chain if and only if size, Merkle root, link, height, slot, timestamp window, signature under the key it carries, elected proposer, coinbase rule, transactions and state root are in order, each written out |
| Verdicts.SignedIff | internal/chain/pos.go:82-98 | a header is signed exactly if its 32-byte key verifies its signature over the hash of its ten fields |
| Verdicts.WindowIff | internal/chain/consensus.go:34-40 | the timestamp must lie within ten minutes of the slot on either side |
| Verdicts.CoinbaseIff | internal/chain/consensus.go:60-93 | the coinbase rule on the transactions: first, decodable, within the schedule, to the proposer, and present when something is due |
| Verdicts.BlocksAreSealed | internal/chain/consensus.go:34-53 | every block of an accepted chain after genesis carries a good signature under the key it carries, lies in its slot's window, and names whoever the ledger before it elects |
| Verdicts.GenesisFields | internal/chain/genesis.go:20-62 | the genesis block field by field, with the root of a ledger that holds the whole pool and no accounts |
| Verdicts.GenesisIff | internal/chain/genesis.go:94-123 | a block passes for genesis exactly if its ten hashed fields are those of genesis, barring a collision |
| Chain.ChainFacts | internal/chain/engine.go:307-350 | along every accepted chain: every block applies, heights are contiguous, links and slots are in order, every state root is the root of its prefix' replay |
| Consensus.PrefixAccepted | internal/chain/engine.go:307-350 | every non-empty prefix of an accepted chain is an accepted chain |
| Chain.RewardEmptiesPool | internal/chain/types.go:284-297 | schedule and pool agree with the closed form at every height; no halving ever binds |
| Chain.PoolClosedForm | internal/chain/state.go:146-169 | after any accepted chain of height h the pool is 4,200,000 - min(4,200,000, 50h); it is empty exactly from height 84,000 on |
| Chain.SameTipSameHeaders | internal/chain/types.go:100-123 | linked chains whose tips have the same hash consist of the same hashed headers |
| Chain.Agreement | internal/chain/engine.go:331-333 | two nodes with equal tip hashes have equal hashed headers, pool, height and accounts, unless one of the hashed inputs collided |
| Bodies.FullAgreement | internal/chain/consensus.go:9-58 | nodes with equal tip hashes have the same transactions at a height if and only if their blocks there have equally many; if so everywhere, their ledgers are equal down to the burn evidence, barring collisions |
| Bodies.BodyUnique | internal/chain/merkle.go:9-41 | two bodies under one Merkle root are equal, ids and transactions alike, if and only if they are equally long, barring collisions |
| Bodies.TwinIsAccepted | internal/chain/consensus.go:9-58 | if the transactions under the last node of an odd level are alerts, the block that repeats them has the same header, is accepted too and leads to the same ledger, though the transaction count fits only one of them |
| Witnesses.SameTipOtherBlock | internal/chain/consensus.go:9-58 | two different accepted chains with the same tip hash, grown from genesis by any ordinary node |
| Bodies.VerdictIgnores | internal/chain/consensus.go:9-58 | the verdict on a block depends neither on its transaction count nor on which key signed it |
| Bodies.AnySignerIsAccepted | internal/chain/pos.go:82-98 | an accepted block stays acceptable with any transaction count and signed anew with any key; it then names its signer exactly if that key belongs to the proposer |
| Witnesses.SignedByAnother | internal/chain/pos.go:82-98 | an accepted chain, grown from genesis, whose block names one node as its proposer and is signed with another's key |
| Stores.Store.Open | internal/chain/store.go:20-46 | reading a list of blocks gives the same indexes as adding them one by one |
| Stores.Store.Index | internal/chain/store.go:48-55 | later blocks win in both indexes and the tip moves to any block that is not lower |
| Stores.Store.Append | internal/chain/store.go:58-66 | indexes the block and writes the blocks in order of height |
| Stores.Store.SaveList | internal/chain/store.go:68-80 | the list written is the blocks present, in order of height |
| Stores.Store.Headers | internal/chain/store.go:114-127 | the headers of those blocks, in the same order |
| Stores.FoundAtHeight | internal/chain/store.go:48-55 | in a store of any blocks, a block is found at its height unless a later one has that height |
| Stores.FoundByHash | internal/chain/store.go:48-55 | and under its hash unless a later one has that hash |
| Stores.TipIsHighest | internal/chain/store.go:48-55 | the tip is the last of the highest blocks |
| Stores.ListingIs | internal/chain/store.go:68-80 | the list written holds exactly the blocks found below the tip, by ascending height |
| Stores.ChainIndexes | internal/chain/store.go:48-55 | in a store filled with a chain the height index is the chain and the tip its last block |
| Stores.HashLookup | internal/chain/store.go:97-101 | a hash is found exactly when a stored block has it, and leads to such a block |
| Stores.SaveOpenRoundTrip | internal/chain/store.go:20-80 | saving and reopening a chain restores both indexes and the tip |
| Mempools.Mempool.constructor | internal/chain/mempool.go:16-21 | starts empty, with 5000 as the default bound |
| Mempools.Mempool.Push | internal/chain/mempool.go:34-42 | append keeps the queue's content also when it moves to a larger array |
| Mempools.Mempool.Add | internal/chain/mempool.go:24-44 | refuses, without a change, what needs its sender's signature and lacks it, and duplicates; otherwise drops the oldest entry of a full pool and appends; map and queue agree afterwards |
| Mempools.Mempool.Peek | internal/chain/mempool.go:47-62 | exactly min(n, length) pending transactions, all of them for n not positive, entry i being the one under the i-th id of the queue |
| Mempools.Mempool.Remove | internal/chain/mempool.go:65-80 | removes exactly the given ids from map and queue, in the same backing array |
| Mempools.Compact | internal/chain/mempool.go:73-79 | filtering the queue over its own array overwrites nothing that is still to be read |
| Mempools.AgreeAfterAdd | internal/chain/mempool.go:24-44 | after an addition with eviction the queue is still duplicate-free, lists exactly the keys of the map and is within the bound |
| Mempools.AgreeAfterRemove | internal/chain/mempool.go:65-80 | so it is after a removal |
| Mempools.FilterOutKeepsOrder | internal/chain/mempool.go:73-79 | entries that stay keep their relative order, and no order is invented |
| Engines.Engine.Create | internal/chain/engine.go:31-74 | an engine opened on an empty directory holds exactly the genesis chain |
| Engines.Reopen | internal/chain/engine.go:31-74 | opening a stored list yields the replayed ledger or names the failure; for an accepted chain it yields a valid engine with that chain |
| Engines.ReplayLoop | internal/chain/engine.go:62-70 | the replay loop stops at the first missing or failing block and otherwise holds the fold |
| Engines.ReopenRestores | internal/chain/engine.go:31-74 | a store holding an accepted chain always reopens, to the very ledger it was closed with |
| Reopening.OpensIff | internal/chain/engine.go:54-70 | a store opens with a ledger if and only if no height up to its tip is missing, every block applies on what the ones below lead to, and the ledger is where they lead |
| Reopening.ReplayErrors | internal/chain/engine.go:62-69 | otherwise the lowest missing height, or the lowest block that does not apply and its reason, is reported |
| Engines.Engine.Check | internal/chain/engine.go:307-333 | the dry run changes nothing and decides the verdict on a block |
| Engines.Engine.AcceptLocked | internal/chain/engine.go:307-350 | accepting is atomic: either nothing changes, or the chain grows by that block, ledger and store follow, its transactions leave the mempool, and the second application cannot fail |
| Engines.Engine.AcceptBlock | internal/chain/engine.go:301-350 | success with the chain grown by the block, success with nothing changed for a stale block, or the error of the verdict with nothing changed; and HasTxHash never turns from yes to no for a burn, barring collisions of transaction ids |
| Engines.Engine.ExtendBy | internal/chain/engine.go:334-349 | the writing part keeps ledger and store functions of the chain of accepted blocks |
| Engines.Engine.Accessors | internal/chain/store.go:83-111 | in a valid engine the block found at height h is block h of the chain, the tip is its last, and the ledger remembers exactly the burns on it |
| Engines.Engine.SubmitTx | internal/chain/engine.go:145-153 | a transaction enters the mempool exactly if it applies on a copy of the ledger at the next height and is not there yet; ledger and store do not change |
| Engines.Engine.HasTxHash | internal/chain/engine.go:210-217 | yes exactly for pending transactions and confirmed burns |
| Engines.Engine.IssueTicketForBurn | internal/chain/engine.go:220-232 | a ticket is issued exactly for a burn that is pending or confirmed here |
| Engines.Engine.BuildFront | internal/chain/engine.go:394-426 | the proposer's own transactions are the due coinbase and, if it would succeed, an activation |
| Engines.Engine.KeepApplicable | internal/chain/engine.go:435-440 | the loop keeps exactly what the filter of the specification keeps, on the same scratch ledger |
| Engines.Engine.MayBuild | internal/chain/engine.go:381-392 | force overrides the election only while nobody is elected |
| Engines.Engine.SealDraft | internal/chain/engine.go:446-463 | the sealed block carries the root of the ledger its draft leads to |
| Engines.Engine.Build | internal/chain/engine.go:354-466 | up to the release of the lock nothing but the mining flag changes |
| Engines.Engine.OfferSealed | internal/chain/engine.go:466-474 | the second critical section: the sealed block extends what the chain has become exactly if that is what it was built on and the self-acceptance condition holds; success is also reported for a block that is passed over |
| Engines.Engine.ProposeOnce | internal/chain/engine.go:354-476 | with any blocks from others arriving between its two critical sections: the sealed block ends up on the chain exactly if they added nothing and the self-acceptance condition holds; success is reported exactly for that, or when the block was passed over as stale; the error returns for the body are never taken |
| Proposing.ProposalNeverRefused | internal/chain/engine.go:428-460 | neither the proposer's own transactions nor the assembled body ever fails to apply |
| Proposing.BodyApplies | internal/chain/engine.go:428-460 | the filtered body applies on a fresh copy of the ledger |
| Proposing.ProposalTimeInWindow | internal/chain/engine.go:369-380 | whatever the clock reads, the timestamp lies in the slot's window, wrapped Durations included |
| Proposing.SealedRoot | internal/chain/engine.go:457-463 | sealing changes neither what the block does nor the root of its result |
| Proposing.SealedPasses | internal/chain/engine.go:354-463 | every sealed block is signed, in its window, by an allowed proposer, and carries the right state root |
| Production.SlotOfProposal | internal/chain/engine.go:366-369 | the slot of the clock if past the tip's, otherwise the next one |
| Production.TimeOfProposal | internal/chain/engine.go:370-380 | the clock itself while it is in the slot, a second into the slot before it, the middle of the slot after it |
| Production.FrontIs | internal/chain/engine.go:394-426 | the producer's own transactions, field by field: the coinbase for what is due while the schedule pays, and its activation if it is needed and allowed |
| Production.SealedHeader | internal/chain/engine.go:446-463 | the header of a sealed block, field by field |
| Production.SealedBody | internal/chain/engine.go:394-445 | its body is the producer's own transactions and then, in their order, exactly those pending ones that apply on what comes before them in the block |
| Production.OutcomeOf | internal/chain/engine.go:354-463 | an attempt fails exactly while somebody else is elected, forced or not; there is nothing to propose exactly if nothing is due and nothing pending applies; otherwise a block is sealed |
| Acceptance.SelfAcceptance | internal/chain/engine.go:354-476 | at every height, for any clock and mempool: a sealed block is accepted if and only if it is within the size limit, slot and height did not run out, and no pending coinbase asks for what is due after the producer's own (or, past the last reward, for nothing without leading the block) |
| Acceptance.SieveCoinbase | internal/chain/engine.go:435-440 | the filter keeps a coinbase exactly if one on offer asks for what is due when it starts |
| Acceptance.RewardedBody | internal/chain/consensus.go:60-93 | while rewards are paid, the assembled body keeps the coinbase rule exactly if the mempool holds no coinbase for the remaining due |
| Acceptance.LateBody | internal/chain/consensus.go:60-93 | past the last reward, it keeps the rule exactly if every pending coinbase for nothing would come first in the block and pays the proposer |
| Witnesses.PendingCoinbaseSpoils | internal/chain/engine.go:145-153 | on genesis an unsigned coinbase passes the dry run that admits it to the mempool, is kept and sealed, and the block is refused with the coinbase error |
| Proposing.SelfAcceptanceWithoutPendingCoinbase | internal/chain/engine.go:354-476 | without a pending coinbase it is accepted if and only if it is within the size limit, at every height |
| Proposing.PendingCoinbaseIsKept | internal/chain/engine.go:435-440 | a pending coinbase for what is due after the producer's own is kept by the filter |
| Acceptance.GapTheorem | internal/chain/engine.go:466-474 | a block sealed on an accepted chain extends whatever accepted chain has grown out of it if and only if nothing was added and the block would have been accepted at once |
| Acceptance.GapIgnores | internal/chain/engine.go:311-321 | a proposal is passed over without an error exactly if the chain has moved past its height, or ends in a block with its hash, or heights have run out |
| Evidence.HasBurnTxExactly | internal/chain/state.go:202-238 | the burn set is exactly the ids of the burns on the chain |
| Evidence.AcceptKeepsEvidence | internal/chain/engine.go:340-344 | a burn that was pending or confirmed is so after a block has been applied and its transactions removed from the pool, barring collisions of transaction ids |
| Evidence.TicketGuarantees | internal/chain/ticket.go:141-182 | a validated ticket is signed with its own key, in time, about the payload and claims the price; its id is that of a burn on the chain or of some pending transaction, and it stands for a burn exactly if that one is a burn |
| Evidence.TransferBacksTicket | internal/chain/engine.go:210-217 | any key can sign a ticket over a pending transfer that validates |
| Tickets.TicketMatchesDebit | internal/chain/ticket.go:107-138 | the amount on a ticket is to the unit what the burn takes off its sender, and the ticket names the recorded id |
| Tickets.TicketFields | internal/chain/ticket.go:107-138 | what is on an issued ticket, field by field, and when one is issued |
| Tickets.ValidatesIff | internal/chain/ticket.go:141-182 | a ticket is validated if and only if its key verifies it, it is at most a day old and a minute ahead, names the payload in one of three ways, claims the price and names a known transaction |
| Tickets.TicketVerdict | internal/chain/ticket.go:141-182 | the first of these that fails decides the error |
| Tickets.IssuedTicketValidates | internal/chain/ticket.go:141-182 | an issued ticket passes the receiver's checks if and only if it is in time, burn and fee reach the message's price and the burn is known |
| Tickets.AnyKeyValidates | internal/chain/ticket.go:141-182 | a ticket signed with any key validates exactly if it is in time, names the payload, claims the price and names a known transaction |
| Rings.Ring.constructor | internal/dedup/ring.go:23-29 | starts with an empty history |
| Rings.Ring.Seen | internal/dedup/ring.go:34-37 | says yes exactly for keys among the last 65536 accepted ones |
| Rings.Ring.Add | internal/dedup/ring.go:41-57 | accepts exactly unseen keys; array, set, head and full flag keep describing the window, and only the oldest key is evicted |
| Rings.Ring.Len | internal/dedup/ring.go:60-65 | the number of keys in the window |
| Rings.SeenIff | internal/dedup/ring.go:31-37 | a key is seen exactly if one of the last 65536 accepted keys has both its hashes, joined by a bar |
| Rings.WindowSlides | internal/dedup/ring.go:46-56 | accepting pushes out the oldest entry of a full window and nothing else |
| Rings.AcceptedApart | internal/dedup/ring.go:41-57 | after any run of additions a key recurs in the history only after at least 65536 other acceptances |
| Rings.CompositeInjective | internal/dedup/ring.go:31 | keys whose first hash has no bar are told apart by their composite |
| Packets.WriteSignMaterial | internal/protocol/packet.go:96-144 | the sequence of buffer writes produces the specified layout |
| Packets.MaterialLayout | internal/protocol/packet.go:96-144 | the signed bytes written out, in their order on the wire |
| Packets.CutAllUndoesJoin | internal/protocol/packet.go:96-144 | a reader recovers any delimited fields, whatever follows them |
| Packets.ParserRecovers | internal/protocol/packet.go:96-144 | the sign material can be read back to every signed field if and only if text fields are free of zero bytes, ints fit 32 bits and 0 <= ExpireAtUs < 2^56 |
| Packets.MaterialsAreParsed | internal/protocol/packet.go:96-144 | the byte strings that are sign material of a well-formed packet are exactly those that can be cut along the layout with both flags 0 or 1 |
| Packets.MaterialUnique | internal/protocol/packet.go:96-144 | well-formed packets with equal sign material agree in every signed field |
| Packets.AmbiguousBeyondLimit | internal/protocol/packet.go:137-142 | at ExpireAtUs = 2^56 two different packets have the same sign material |
| Packets.WorkMaterialUnique | internal/protocol/packet.go:147-155 | the mining base fixes everything signed but the proof itself |
| Packets.HashBodyUnique | internal/protocol/packet.go:166-171 | hashed bodies are equal exactly if the packets agree in all signed fields but the ticket and in ticket and signature taken together; the packets are then equal exactly if the signatures are equally long |
| Packets.ForwardingKeeps | internal/protocol/packet.go:95-171 | changing the hop count keeps identity, mining base, hashed body and, up to the limit, the verdict of Verify |
| Packets.MaterialIgnores | internal/protocol/packet.go:96-155 | hops, clock sample, difficulty hint, signature and hashes are not part of the material |
| Packets.VerifyIff | internal/protocol/packet.go:174-221 | a packet verifies if and only if version, hops, key, sender id, signature, both hashes, clock and expiry are in order, each written out |
| Packets.SignedVerifies | internal/protocol/packet.go:174-221 | a packet signed by its own sender verifies if and only if version, hops, clock and expiry allow it |
| Packets.ClockWindow | internal/protocol/packet.go:207-216 | the clock check admits exactly the half-second window and timestamps at least 2^63 ns ahead, where the subtraction saturates |
| Packets.FarFutureAdmitted | internal/protocol/packet.go:207-216 | such a timestamp |
| Packets.SameKeySamePacket | internal/protocol/packet.go:158-171 | verified packets that the duplicate filter cannot tell apart are the same up to the unsigned fields and to where ticket ends and signature begins, which is settled exactly if the signatures are equally long; barring a collision |
| ProofOfWork.LeadingZerosIff | internal/pow/pow.go:181-197 | at least d leading zero bits exactly when the big-endian value is below 2^(8n-d) |
| ProofOfWork.LeadingZeroBits | internal/pow/pow.go:181-197 | the two nested loops count the zero bits before the first one bit |
| ProofOfWork.WorkIff | internal/pow/pow.go:146-160 | a proof is accepted exactly if the hash is below 2^(256 - difficulty) as a number, the difficulty is positive, and the hash text is empty or the hash |
| ProofOfWork.Mine | internal/pow/pow.go:127-144 | returns the least nonce that meets the clamped difficulty, with a proof that Verify accepts; at the requested difficulty exactly if that was positive |
| Frames.FramePad | internal/p2p/udp.go:328-339 | the padded datagram is length prefix, frame and zeros, of the wanted size or just enough |
| Frames.PaddingIsUndone | internal/p2p/udp.go:328-349 | unframing gives the frame back if and only if it is neither empty nor 61440 bytes or longer; a frame that does not begin with zero may go unpadded |
| Nodes.Node.OnP2PPacket | internal/node/node.go:656-779 | filter, clock samples, inbox, bundles and the forwarded copy after one packet are those of the reaction function, for every packet and setting |
| Nodes.Node.Admit | internal/node/node.go:666-692 | a packet enters the filter exactly if it is unseen and passes proof of work and signature checks, and only then contributes its clock sample |
| Nodes.SampleWindow | internal/node/node.go:678-689 | for a wall clock of this era, exactly positive samples within ten minutes of it are handed to clock synchronisation |
| Nodes.Node.Deliver | internal/node/node.go:747-778 | the inbox grows by the message exactly if the packet is no service packet, is paid for, is for everybody or for this node, and decrypts |
| Nodes.Node.BuildPacket | internal/node/node.go:565-636 | a send fails without a trace before sealing and ticket are done; otherwise the packet is mined, signed and recorded in the sender's own filter |
| Nodes.Node.BuildAndSend | internal/node/node.go:565-654 | a packet that was built reaches every neighbour that can be reached or, if there is none, is queued; nothing is sent or queued otherwise |
| Nodes.SendPacket | internal/p2p/udp.go:262-292 | the send loop reaches exactly the neighbours that can be written to, and none with an oversized datagram |
| Nodes.OnlyAuthentic | internal/node/node.go:656-779 | whatever is forwarded, shown or learned from carries a proof of work, is signed by the key its sender id is derived from, and is not from a blocked sender; what is shown is addressed to the node and, where tickets are required, brings one that the chain validates |
| Nodes.AcceptedIff | internal/node/node.go:666-692 | a packet is accepted exactly if none of the last 65536 had its hashes and its work, version, hops, key, signature, hashes, clock and expiry are in order; then its clock sample counts if it is within ten minutes |
| Nodes.ForwardedIff | internal/node/node.go:693-745 | and forwarded exactly if it is moreover heard (sender not blocked, trusted, alerts genuine and wanted), has hops left and is no clock flood, with one more hop |
| Nodes.LearnedIff | internal/node/node.go:711-729 | and learned from exactly if it is a heard key flood with a bundle that parses |
| Nodes.ShownIff | internal/node/node.go:747-778 | and shown exactly if it is heard, is no service packet, is paid for, is for everybody or for this node, and decrypts; with the fields of the message |
| Nodes.SentFields | internal/node/node.go:565-636 | a sent packet field by field: addressee, flags, keys, cipher, expiry, ticket, and its proof of work, signature and hashes |
| Nodes.SentPacketPasses | internal/node/node.go:565-636 | a sent packet passes every node's checks after any number of hops below 30 exactly until it expires or leaves the clock window |
| Floods.Others | internal/p2p/udp.go:295-306 | a forward goes to exactly the neighbours but the one the packet came from |
| Floods.StepKeeps | internal/node/node.go:656-779 | every step of the mesh, loss and duplication included, keeps the flood invariant |
| Floods.AtMostOnce | internal/node/node.go:666-778 | in every run, while fewer than 65536 later keys were accepted at a node, it accepted, forwarded and showed a packet at most once each |
| Floods.CopiesAreGenuine | internal/node/node.go:731-745 | in every run every copy on its way is a packet as its sender built it, with a hop count below its limit of at most 30 |
| Floods.RunSpends | internal/node/node.go:656-779 | over any run without duplication, sends plus what may still be sent never grow and every step about the packet uses up energy |
| Floods.ChatFloodEnds | internal/node/node.go:636-646 | without duplication a chat flood takes at most one send per link end and at most one further step per node |
| Floods.KeyFloodEnds | internal/node/node.go:322-351 | a key flood, which its sender does not record, is bounded in sends and in steps by the sender's neighbours more |
| Coverages.LevelBound | internal/node/node.go:656-779 | in a flood the hop count at which a node learns a packet is below the number of nodes |
| Coverages.EveryoneIsReached | internal/node/node.go:656-779 | if nothing is lost, nodes that do not know the packet let it pass and there are at most limit + 1 nodes, then once the flood has settled every node the origin has a path to has accepted it exactly once, whatever was delayed, reordered, duplicated or came too late |
| Coverages.AddresseeIsShown | internal/node/node.go:656-779 | in such a flood a node that the packet is for (or that a broadcast reaches), and that listens to the sender and can read it, has it in its inbox exactly once |
| Reach.OneNodeTooMany | internal/node/node.go:732 | the size is exact: on a line of limit + 2 nodes such a flood settles without the last node |

## Left out

- Account objects: accounts are values in a map that the methods reassign; that two handlers could hold the same
  `*Account` is not modelled (a transfer to oneself is, by looking the receiver up again).
- Peek returns pointers to copies in the program and values here.
- JSON texts: encodings are abstract functions; numbers of a field's digits, invalid UTF-8 and unknown fields are not
  modelled, and the encoded size of a block is a function of the block.
- Disk: writing a store is taken to succeed, and reading gives back what was written.
- Cryptography: Ed25519, SHA, Argon2, AES-GCM and X3DH are parameters; decryption is an answer given from outside, never
  computed.
- Concurrency inside a node: handling one packet, and each critical section of the engine, is one step.
- ProofOfWork.Mine: promises a result only where a solution exists; without one the program's loop does not end.
- Nodes.Node.BuildPacket: promises a packet only where mining finds one; adaptive difficulty is not modelled, and what
  becomes of a queued packet is outside the model.
- Nodes.Node.OnP2PPacket: the one-time key that a successful decryption uses up is not part of the node's state, nor is
  what clock synchronisation makes of the samples.
- Engines.ValidateMainnetGenesis: compares with the block that `BuildGenesis` builds, as the program demands of its
  frozen fingerprints; their hexadecimal values are not computed.
- Neighbour tables: the mesh is fixed during a run; a failed send is a loss. Hole punching, keep-alives and the seed
  server are not modelled.
- Trust store, alert keys, clock synchronisation, delay-tolerant queue, configuration and the older `mst` ledger: small
  guards or bounded lists; where they decide about a packet their answer is an input.
- `AnonymousBurn`, the transaction builders, `StartMiner`, `Status` and inbox sorting: compositions or displays of what
  is modelled.
