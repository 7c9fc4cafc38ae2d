# Verified model of the ZK-DPP core

A digital product passport lets a supplier commit to claims about a product, prove predicates
about them without showing the values, and be paid for each verification.  This project models
the parts of that system where correctness spans several functions, and proves what they promise.

**Commitments and circuits.**  A supplier's agent hashes each claim and builds a Merkle tree over
the hashes (`Merkle`, `EdgeAgent`).  A zero-knowledge circuit re-checks the path and asserts
something about the committed value (`NoirLib`, `Openings`, `Circuits`, `SetCircuit`,
`SubstanceCircuit`, `LifecycleCircuit`).  The hash is a parameter of every definition, so the
theorems hold of any function from byte strings to 32-byte digests.  Since colliding strings
always exist, each soundness theorem is about the finding of a named function: from an accepted
witness it extracts the committed claim, or the very two byte strings that share a hash
(`MerkleSoundness`, `ListBinding`).  The converse is proved too: every place a byte string has in
a tree comes with a path that is accepted (`MerklePlaces`), so that for each circuit the values it
accepts, up to collisions, are known exactly; and when two leaf lists of any lengths share a root
(`MerkleBinding`).  What the agent builds from its own claims is accepted exactly when they meet
the predicate.  A claim's JSON is hashed in canonical form (`Canonical`).

**Contracts.**  `VerificationEscrow`, `RoyaltySettlement` and `PaymentDistributor` are classes over
one EIP-20 token; each method is proved against a function from old state to new state or revert
(`Escrow`, `Settlement`, `Distributor`, `Token`).  The events a contract emits are kept as its
history, and its tables are proved to be what the history says.  `Chain` runs all three under any
sequence of calls by outside accounts at any times; `Backing` joins escrow and settlement.  That
the history is the history of the calls is proved as well: `CallLedgers` reads every balance and
total off the steps of a run, and `StatementTrace` every statement and its times.

**Settlement protocol.**  The billing service's two route handlers are step machines: each `await`
may succeed, fail before its effect, or fail after it, and handlers interleave with each other,
with the chain and with other people's transactions (`SettlementProtocol`).  Whether the wallet in
a row is the supplier on chain is a question of its own (`SettlementWallets`); what an answer of
the service means, and that a submission without failures ends PAID, is in `SettlementAnswers`.

**Statements, views, nonces.**  The grouping loop of a settlement statement and of the usage
summary (`Grouping`, `Statements`), the tiered passport views (`Views`), and the replay window of
the verify gateway (`Nonces`).

## Where code and expectation differ

- `hash_pair` says in a comment that nodes are sorted before they are joined
  (crates/commitments/src/merkle.rs:157).  The code does not sort, and the model follows the code.
- The circuits take the depth of the path as a private input, and a value claim or a list claim
  hashes 64 bytes, as an inner node does.  A path deeper than the tree can therefore end below such
  a claim: a value claim whose id is the hash of another claim lets that other claim be opened,
  though it was never committed.  `Circuits.NestedClaimIsAccepted` and
  `SetCircuit.NestedMemberIsAccepted` are such inputs; `Circuits.RangeExactly`, `WindowExactly`,
  `LifecycleCircuit.StageExactly` and `SetCircuit.SetExactly` give the exact condition.  Soundness
  holds of every tree that fills the circuits' depth of 8, and, where the claim itself is not 64
  bytes long, of every tree without 64-byte claims (`Openings.NoRoomBelow`).
- In the same way the beginning of a committed substance list can be opened in place of the whole,
  so a list whose last items are forbidden passes by its beginning
  (`SubstanceCircuit.ForbiddenTailIsAccepted`; `ListExactly` has the condition).
- The circuits' lists are arrays of fixed length: 32 products, 64 forbidden items, and the set
  template's MAX_SET_SIZE.  The agent checks this only when it makes a proof.  It can commit to a
  list of more than 32 substances, which no proof can ever be made of
  (`SubstanceCircuit.LongListIsNeverProved`).
- Two leaf lists of unequal length can share a root: an odd level pairs its last node with itself,
  and a leaf can be an inner node of the other tree.  Up to collisions these are the only ways
  (`MerkleBinding.RootsMeetExactly`).
- The comment before the failure path of submit-on-chain says the status goes back to
  NOT_SUBMITTED (services/metering-billing/src/routes/blockchain.ts:177).  The code writes FAILED
  there, over whatever the status was.  A row in any status, SUBMITTED and FINALIZED included,
  becomes FAILED when a submit request fails to read it, and the loser of two concurrent
  submissions writes FAILED over the winner's SUBMITTED.  While a row is FAILED both handlers
  refuse it.
  Whether it has a statement does not depend on its status: it has one exactly if a submit
  transaction for it landed (`SettlementProtocol.StatementIffSubmitLanded`, `FailedRow`).
- The two awaits that write a wallet to the row and send it to the chain are not one step.  Two
  requests for one row that name different wallets can leave the row with the one while the chain
  credits the other (`SettlementWallets.TwoWalletsDisagree`).  Row and chain are sure to agree
  exactly if all requests for the row name one wallet (`WalletAgreesExactly`).
- A statement's grouping key is the predicate id, a colon and the brand, or "none" without one.
  Two rows land on one line exactly in the cases of `Statements.RowsShareLine`: the same id and
  brand; the same id, with a missing brand, an empty one or one spelled "none" (`BrandNamedNone`);
  or an id that continues the other after a colon (`KeysMeet`, `MixedLine`).
- What a statement line shows beside its sums is its first row's.  It is independent of the order
  of the rows exactly if the rows under its key agree (`Statements.ShownPriceDependsOnOrder`).
  The currency is the first row's of all, so a summary and a statement of one period can differ in
  it; it is independent of the order exactly if all rows agree (`CurrencyDependsOnOrder`).
- A proof package stamped ahead of the clock can pass a second time after its nonce has been
  swept.  After any run, exactly the packages stamped after their nonce was stored can
  (`Nonces.ReplayNeedsALead`).
- The authority view lists results of predicates the registry does not know, which the access
  check denies to everybody (`Views.UnknownPredicateIsShown`).
- Padding fits a tree's paths exactly up to 256 leaves, while the tree itself allows 2^32.

## Assumptions

- The chain does not reorganize, the owners' `emergencyWithdraw` is not used, and the payment token
  takes no fee, calls nobody back and is neither minted nor burned.  OpenZeppelin's contracts are
  not part of this model beyond owner, pause and token transfer.
- No submission of a statement by anybody but the billing service succeeds; attempts that revert
  are allowed.  Where backing is concerned, the owner never succeeds in changing the escrow's
  settlement address to another, or in submitting more for a supplier than was transferred.
- JSON objects have distinct keys, as `serde_json` guarantees.
- Clocks never run backwards.  Prices and row totals are whole numbers of 10^-4.

## Model

| member | source | states |
|---|---|---|
| `Merkle.HashPair` | crates/commitments/src/merkle.rs:158-163 | hashes the 64 bytes of left followed by right, never sorted |
| `Hashing.JoinLayout` | crates/commitments/src/merkle.rs:158-163 | the first 32 bytes of a pair are its left half, the last 32 its right half |
| `Merkle.HashLevel` | crates/commitments/src/merkle.rs:57-65 | one level up: node j hashes nodes 2j and 2j+1, the last node of an odd level with itself |
| `Merkle.NextLevelHashes` | crates/commitments/src/merkle.rs:57-65 | in plain bytes: a node hashes its left child followed by its right one, or by itself where there is none |
| `Merkle.RootOfThree` | crates/commitments/src/merkle.rs:50-68 | the roots of two and of three leaves, written out |
| `Merkle.BuildLevels` | crates/commitments/src/merkle.rs:50-68 | pushing levels until one node is left gives all levels of the tree |
| `Merkle.Build` | crates/commitments/src/merkle.rs:38-71 | fails on no claims and on more than 2^32, otherwise gives the tree over the claims |
| `Merkle.DepthIsCeilLog2` | crates/commitments/src/merkle.rs:43-47 | the depth of a tree of n leaves is the least d with 2^d >= n |
| `Merkle.CeilLog2` | crates/commitments/src/merkle.rs:44 | the depth compared with the limit is the ceiling of log2 |
| `Merkle.LevelsAreTree` | crates/commitments/src/merkle.rs:50-68 | levels chain from the leaves to a single root, one more level than the depth |
| `Merkle.Prove` | crates/commitments/src/merkle.rs:87-119 | collects the siblings and sides from the leaf to the root, a lone node as its own sibling |
| `Merkle.PathFoldsToRoot` | crates/commitments/src/merkle.rs:87-154 | completeness: for every leaf list and index, folding the proof's path gives the root |
| `Merkle.PathEntry` | crates/commitments/src/merkle.rs:95-112 | entry k of a path is the neighbour on level k of the walked node, and its side the parity of that node's place |
| `Merkle.FoldJoins` | crates/commitments/src/merkle.rs:141-151 | side 0 joins the walked node on the left of its sibling, any other side on the right |
| `Merkle.VerifyMerkleProof` | crates/commitments/src/merkle.rs:131-154 | accepts exactly equal lengths whose fold is the expected root |
| `Merkle.Verify` | crates/commitments/src/merkle.rs:122-124 | accepts exactly what folds to the tree's root, and every proof the tree itself makes |
| `MerkleSoundness.Walk` | crates/commitments/src/merkle.rs:53-68 | any path that reaches a node of the tree runs along committed nodes, leaves through a leaf, or shows a collision |
| `MerkleSoundness.Locate` | crates/commitments/src/merkle.rs:131-154 | a byte string carried to the root by any path is a leaf, a 64-byte inner node, or hangs by the first part of the path below a leaf that hashes 64 bytes, or a collision is shown |
| `MerklePlaces.TreeAbove` | crates/commitments/src/merkle.rs:53-68 | the part of a tree above one of its levels is the tree over that level, with the same root |
| `MerklePlaces.LocateFinds` | crates/commitments/src/merkle.rs:87-154 | conversely every place a byte string has in or below the tree has a path that folds to the root, and locating it by that path finds a place, never a collision |
| `MerkleSoundness.BindingCollision` | crates/commitments/src/merkle.rs:53-68 | binding: two unequal leaf lists of one length with one root yield a collision |
| `MerkleSoundness.RepeatedLastLeafKeepsRoot` | crates/commitments/src/merkle.rs:60-63 | equal length is needed: repeating the last leaf of an odd list keeps the root |
| `MerkleBinding.FilledKeepsRoot` | crates/commitments/src/merkle.rs:57-65 | a tree has the root of the full tree over its leaves, with the nodes repeated that the code pairs with themselves |
| `MerkleBinding.RootsMeetExactly` | crates/commitments/src/merkle.rs:50-68 | two leaf lists of any lengths share a root exactly if the shallower, filled up, is the filled-up level of the same depth in the other tree, or else a collision is shown |
| `NoirLib.HashPair` | circuits/noir/lib/src/lib.nr:10-17 | hashes the 64 bytes of left followed by right, as the Rust code does |
| `NoirLib.BytesEqual` | circuits/noir/lib/src/lib.nr:172-180 | true exactly for equal arrays |
| `NoirLib.VerifyMerkleProof` | circuits/noir/lib/src/lib.nr:38-70 | accepts exactly when the first min(depth, DEPTH) entries fold to the root |
| `NoirLib.HashClaimValue` | circuits/noir/lib/src/lib.nr:78-101 | hashes type, 8-byte big-endian value and unit, taken from a 32-byte field encoding |
| `Hashing.NumericLayout` | circuits/noir/lib/src/lib.nr:78-101 | type hash, the value most significant byte first, and unit hash, in this order |
| `Hashing.LeadingByte` | circuits/noir/lib/src/lib.nr:85-92 | the first byte of an encoded number weighs most |
| `NoirLib.HashCertWindow` | circuits/noir/lib/src/lib.nr:104-124 | hashes type and both 8-byte bounds |
| `Hashing.WindowLayout` | circuits/noir/lib/src/lib.nr:104-124 | type hash, start and end of the window, in this order |
| `NoirLib.HashSubstanceList` | circuits/noir/lib/src/lib.nr:127-155 | over a padded list and a count, the chain of the first count entries |
| `Hashing.ListHashUnfolds` | circuits/noir/lib/src/lib.nr:133-154 | a list starts from its tag followed by its type, and each item is joined behind the chain so far |
| `Openings.Open` | circuits/noir/templates/range_predicate.nr.tmpl:42-49 | what an accepted opening at any private depth says about the committed tree |
| `Openings.OpensExactly` | circuits/noir/templates/range_predicate.nr.tmpl:42-52 | a byte string can be opened, up to collisions, exactly if it has a place in or below the tree within eight steps |
| `Openings.UncommittedOpensExactly` | circuits/noir/templates/range_predicate.nr.tmpl:42-52 | an uncommitted one that is not 64 bytes long, exactly if some path hangs it below a leaf within the depth left under the tree |
| `Openings.NothingNested` | circuits/noir/templates/range_predicate.nr.tmpl:21-38 | nothing can be nested in a tree that fills depth 8 or has no 64-byte claim |
| `Openings.ValueClaimNests` | apps/edge-agent/src-tauri/src/commands/mod.rs:589-595 | a value claim whose id is the hash of a byte string nests it, one step below its leaf |
| `Circuits.RangeFinding` | circuits/noir/templates/range_predicate.nr.tmpl:42-63 | over any tree and depth, an accepted value is a committed claim or nested below a leaf, with the path that hangs it there, or a collision is shown |
| `Circuits.RangeSoundness` | circuits/noir/templates/range_predicate.nr.tmpl:42-63 | where nothing is nested, type hash, value and unit are exactly those of one committed claim, and the value is at least, or at most, the threshold, as the comparison says |
| `Circuits.RangeExactly` | circuits/noir/templates/range_predicate.nr.tmpl:42-63 | exactly when a claim that was never committed is accepted, up to collisions, with the comparison written out |
| `Circuits.NestedClaimIsAccepted` | circuits/noir/templates/range_predicate.nr.tmpl:42-63 | a tree that commits to no numeric claim for which one is accepted |
| `Circuits.WindowFinding` | circuits/noir/templates/timestamp_validity.nr.tmpl:40-63 | what an accepted certificate window is, over any tree and depth |
| `Circuits.WindowSoundness` | circuits/noir/templates/timestamp_validity.nr.tmpl:40-63 | where nothing is nested, both bounds are those of one committed window of the type, which contains the timestamp |
| `Circuits.WindowExactly` | circuits/noir/templates/timestamp_validity.nr.tmpl:40-63 | exactly when a window that was never committed is accepted, up to collisions, with both bounds written out |
| `ListBinding.ListCollision` | circuits/noir/lib/src/lib.nr:133-154 | a chained hash binds type, contents and length, or yields a collision |
| `SetCircuit.CircuitMain` | circuits/noir/templates/set_membership.nr.tmpl:48-75 | the circuit accepts exactly: path, claim hash, set hash, and membership as configured |
| `SetCircuit.SetFinding` | packages/predicate-lib/src/generator.ts:162-184 | acceptance against the hash of a list S, over any tree and depth, means the prover used S, its value is or is not in S, and has a place in or below the tree, or a collision is shown |
| `SetCircuit.SetExactly` | circuits/noir/templates/set_membership.nr.tmpl:48-75 | exactly the values accepted for S, up to collisions; S has to fit the template's MAX_SET_SIZE entries |
| `SetCircuit.SetExtract` | circuits/noir/templates/set_membership.nr.tmpl:48-75 | over any tree, name and depth: the value is a committed claim of the named type, or one of the two other claims that can hash the very same pair, or the name is itself hashed at a node, or the pair is nested below a leaf, or a collision is shown |
| `SetCircuit.SetSoundness` | circuits/noir/templates/set_membership.nr.tmpl:48-75 | where nothing is nested, and always at the tree's depth, such a claim is found; where name and claims can be told apart it is a committed claim of the type |
| `SetCircuit.NestedMemberIsAccepted` | circuits/noir/templates/set_membership.nr.tmpl:48-75 | a tree that does not commit to a value which is accepted, with the list padded to MAX_SET_SIZE |
| `SubstanceCircuit.CircuitMain` | circuits/noir/predicates/substance_not_in_list_v1/src/main.nr:58-93 | over arrays of 32 and 64 entries the nested loops accept exactly when both hashes match and the two counted lists are disjoint |
| `SubstanceCircuit.DisjointEntries` | circuits/noir/predicates/substance_not_in_list_v1/src/main.nr:80-92 | disjoint means that no entry of the one list equals an entry of the other |
| `SubstanceCircuit.ListFinding` | circuits/noir/predicates/substance_not_in_list_v1/src/main.nr:58-93 | acceptance over any tree and depth: the forbidden list is the public one, the products are disjoint from it, and their chain has a place, or a collision is shown |
| `SubstanceCircuit.ListExactly` | circuits/noir/predicates/substance_not_in_list_v1/src/main.nr:58-93 | exactly the product lists that are accepted, up to collisions; at most 32 products and 64 forbidden items can be |
| `SubstanceCircuit.ListLeaf` | circuits/noir/predicates/substance_not_in_list_v1/src/main.nr:72-74 | a chain whose hash is a node k levels up is, without its last k items, a committed list of that type or spelled by another claim, or a collision is shown |
| `SubstanceCircuit.ListExtract` | circuits/noir/predicates/substance_not_in_list_v1/src/main.nr:58-93 | over any tree and depth: a claim spells the witness list, less as many items as the path is short of the tree, and none of them is forbidden; or the witness chain is nested below a leaf; or a collision is shown |
| `SubstanceCircuit.Soundness` | circuits/noir/predicates/substance_not_in_list_v1/src/main.nr:58-93 | where nothing is nested, and always up to the tree's depth, that claim is found; among plain claims it is a committed list of the type, free of forbidden items |
| `SubstanceCircuit.LongListIsNeverProved` | circuits/noir/predicates/substance_not_in_list_v1/src/main.nr:28-48 | where every committed list of the type has more than 32 items, nothing accepted at the tree's depth is a list; no plain claim is accepted but by a collision |
| `SubstanceCircuit.PrefixNests` | circuits/noir/predicates/substance_not_in_list_v1/src/main.nr:72-74 | the beginning of a committed list hangs below the list's own leaf by the items it leaves off |
| `SubstanceCircuit.ForbiddenTailIsAccepted` | circuits/noir/predicates/substance_not_in_list_v1/src/main.nr:58-93 | a committed list of any length whose last items are forbidden is accepted by a beginning of at most 32 items |
| `LifecycleCircuit.GuardedTotal` | circuits/noir/templates/lifecycle_aggregation.nr.tmpl:71-76 | with wrapping addition the guards pass exactly when the true sum fits, and then the total is the true sum |
| `LifecycleCircuit.CircuitMain` | circuits/noir/templates/lifecycle_aggregation.nr.tmpl:48-82 | for any number of stages, accepts exactly when every stage opens and is in range and the integer sum is at most the threshold |
| `LifecycleCircuit.StageFinding` | circuits/noir/templates/lifecycle_aggregation.nr.tmpl:48-65 | what an accepted stage is, over any tree and depth |
| `LifecycleCircuit.Soundness` | circuits/noir/templates/lifecycle_aggregation.nr.tmpl:48-79 | every stage value that is nested nowhere is a committed one, so the bound is on committed values |
| `LifecycleCircuit.StageExactly` | circuits/noir/templates/lifecycle_aggregation.nr.tmpl:48-65 | exactly when a stage that was never committed is accepted, up to collisions |
| `EdgeAgent.HashClaimValue` | apps/edge-agent/src-tauri/src/commands/mod.rs:609-616 | the buffer is type, 8-byte value, unit: the circuit's preimage |
| `EdgeAgent.HashClaimBytes` | apps/edge-agent/src-tauri/src/commands/mod.rs:618-623 | hashes the 64 bytes of type followed by value hash |
| `EdgeAgent.HashCertWindow` | apps/edge-agent/src-tauri/src/commands/mod.rs:625-632 | the buffer is type and both bounds |
| `EdgeAgent.HashSubstanceList` | apps/edge-agent/src-tauri/src/commands/mod.rs:634-656 | the chain of the entries a 32-bit index counts below count, which for up to 2^32 entries are the first count |
| `EdgeAgent.ComputeClaimHash` | apps/edge-agent/src-tauri/src/commands/mod.rs:658-699 | each kind of claim hashes to its leaf's preimage, a list as far as its truncated length counts it |
| `EdgeAgent.LoadHashes` | apps/edge-agent/src-tauri/src/commands/mod.rs:353-365 | all claim hashes in order, or the first missing or malformed claim |
| `EdgeAgent.FirstProblem` | apps/edge-agent/src-tauri/src/commands/mod.rs:353-365 | the error is that of the first id in order which is unknown or malformed |
| `EdgeAgent.AgentHashesAreLeafHashes` | apps/edge-agent/src-tauri/src/commands/mod.rs:634-654 | these are the leaves' own hashes as long as every list can be counted in 32 bits |
| `EdgeAgent.CreateCommitment` | apps/edge-agent/src-tauri/src/commands/mod.rs:323-369 | commits to the root over the named claims, with each error case |
| `EdgeAgent.GenerateProof` | apps/edge-agent/src-tauri/src/commands/mod.rs:731-777 | gives that claim's proof for a live, unexpired commitment, a valid index and readable claims, and otherwise the first error in the order they are looked for |
| `EdgeAgent.RebuiltProof` | apps/edge-agent/src-tauri/src/commands/mod.rs:764-777 | a rebuilt proof is valid for the stored root exactly if the rebuilt root equals it; unchanged hashes keep it, and changed ones with the same root yield a collision by `BindingCollision` |
| `EdgeAgent.Pad` | apps/edge-agent/src-tauri/src/zk/mod.rs:326-357 | fills up to the fixed size, refuses what is longer |
| `EdgeAgent.PaddingIsInvisible` | circuits/noir/lib/src/lib.nr:45-60 | the circuit's check of a padded path with its own length is the Rust check of the path |
| `EdgeAgent.ListPaddingIsInvisible` | circuits/noir/lib/src/lib.nr:144-152 | the circuit's chain over a padded list with its count is the Rust chain over the list |
| `EdgeAgent.PaddingFits` | apps/edge-agent/src-tauri/src/zk/mod.rs:326-335 | a tree's paths fit exactly when it has at most 256 leaves |
| `EdgeAgent.SubstanceInputs` | apps/edge-agent/src-tauri/src/zk/mod.rs:270-305 | path and both lists are padded to 8, 32 and 64 entries, or refused exactly if one is longer |
| `EdgeAgent.HonestOpening` | apps/edge-agent/src-tauri/src/commands/mod.rs:731-777 | for at most 256 unchanged claims the rebuilt and padded proof opens the claim under the stored root |
| `EdgeAgent.HonestRangeProof` | circuits/noir/templates/range_predicate.nr.tmpl:42-63 | from claims to circuit: the agent's own witness is accepted exactly when the value is at least, or at most, the threshold and in range |
| `EdgeAgent.HonestWindowProof` | apps/edge-agent/src-tauri/src/zk/mod.rs:240-268 | the validity circuit accepts the agent's witness exactly when the committed window contains the time |
| `EdgeAgent.HonestSetProof` | circuits/noir/templates/set_membership.nr.tmpl:48-75 | a set circuit accepts the padded witness exactly when the committed value is on the list or off it, as configured |
| `EdgeAgent.HonestSubstanceProof` | apps/edge-agent/src-tauri/src/commands/mod.rs:902-952 | the substance circuit accepts the agent's witness, for lists within 32 and 64 items, exactly when the committed list holds nothing forbidden |
| `Canonical.CanonIsSame` | crates/commitments/src/lib.rs:56-73 | canonicalizing keeps every key and value at every depth |
| `Canonical.KeyLeqIsLexicographic` | crates/commitments/src/lib.rs:62 | keys are sorted in dictionary order: a beginning first, otherwise by the first difference |
| `Canonical.SameIffOneCanonicalForm` | crates/commitments/src/lib.rs:45-73 | two values have one canonical form exactly when they differ only in key order, at any level |
| `Canonical.CanonIdempotent` | crates/commitments/src/lib.rs:56-73 | a canonical form is its own canonical form |
| `Canonical.HashClaimIgnoresOnlyKeyOrder` | crates/commitments/src/lib.rs:75-83 | key order never changes a claim's hash, and anything else does unless the printer or the hash clashes |
| `Escrow.VerificationEscrow.constructor` | contracts/src/VerificationEscrow.sol:52-54 | the deployed state |
| `Escrow.VerificationEscrow.SetSettlementContract` | contracts/src/VerificationEscrow.sol:60-65 | owner only, no zero address, else unchanged |
| `Escrow.VerificationEscrow.Deposit` | contracts/src/VerificationEscrow.sol:71-80 | the whole new state of escrow and token, or a revert that leaves both as they were; `DepositEffect` says whose balance it is |
| `Escrow.VerificationEscrow.RecordVerification` | contracts/src/VerificationEscrow.sol:89-118 | each receipt once, fee moved from brand to supplier, or a revert |
| `Escrow.VerificationEscrow.TransferToSettlement` | contracts/src/VerificationEscrow.sol:125-149 | lowers only the supplier's total, not the records, or a revert |
| `Escrow.VerificationEscrow.Withdraw` | contracts/src/VerificationEscrow.sol:155-167 | pays out of the caller's balance, or a revert |
| `Escrow.VerificationEscrow.SetPaused` | contracts/src/VerificationEscrow.sol:213-222 | owner only, and only a change of state |
| `Escrow.Escrow.DepositEffect` | contracts/src/VerificationEscrow.sol:71-80 | exactly when a deposit succeeds; then the caller's balance alone grows, and the caller alone pays |
| `Escrow.Escrow.RecordEffect` | contracts/src/VerificationEscrow.sol:89-117 | exactly when a record succeeds; then one brand's balance falls and one supplier's pending total and record rise by the amount |
| `Escrow.Escrow.TransferEffect` | contracts/src/VerificationEscrow.sol:125-149 | exactly when a transfer succeeds; then one pending total falls and the tokens go to the settlement address |
| `Escrow.Escrow.WithdrawEffect` | contracts/src/VerificationEscrow.sol:155-167 | exactly when a withdrawal succeeds; then the caller's balance falls and the caller is paid |
| `Escrow.Escrow.AdminEffect` | contracts/src/VerificationEscrow.sol:60-64 | the owner alone sets the settlement address and pauses, and changes nothing else by it |
| `Escrow.Escrow.DepositKeepsSolvency` | contracts/src/VerificationEscrow.sol:71-80 | the deposit comes from the caller, and the escrow still holds all balances and pending totals |
| `Escrow.Escrow.DepositKeepsBalance` | contracts/src/VerificationEscrow.sol:71-80 | the tables still equal the history, whose deposits are the callers' (`CallLedgers.EscrowHistoryIsItsCalls`) |
| `Escrow.Escrow.RecordKeepsSolvency` | contracts/src/VerificationEscrow.sol:89-118 | recording moves a fee without changing what is owed in all |
| `Escrow.Escrow.RecordKeepsBalance` | contracts/src/VerificationEscrow.sol:89-118 | brand, supplier and receipt sums still equal the history |
| `Escrow.Escrow.TransferKeepsSolvency` | contracts/src/VerificationEscrow.sol:125-149 | the settlement contract receives the amount, which the escrow no longer owes |
| `Escrow.Escrow.TransferKeepsBalance` | contracts/src/VerificationEscrow.sol:125-149 | pending plus transferred is still what was recorded |
| `Escrow.Escrow.WithdrawKeepsSolvency` | contracts/src/VerificationEscrow.sol:155-167 | the brand receives what it withdraws, which is no longer owed to it |
| `Escrow.Escrow.WithdrawKeepsBalance` | contracts/src/VerificationEscrow.sol:155-167 | balance is still deposits less withdrawals less recorded fees |
| `Escrow.Escrow.BalancedAppend` | contracts/src/VerificationEscrow.sol:71-167 | any step that changes the tables as its event says keeps: brand balance = deposits - withdrawals - recorded; supplier records = pending + transferred; all records = amounts of distinct receipts |
| `Escrow.Escrow.NeverShort` | contracts/src/VerificationEscrow.sol:125-167 | a solvent escrow never fails a withdrawal or transfer for want of tokens |
| `Settlement.RoyaltySettlement.constructor` | contracts/src/RoyaltySettlement.sol:57-60 | the deployed state, with the default window |
| `Settlement.RoyaltySettlement.SubmitStatement` | contracts/src/RoyaltySettlement.sol:69-94 | a new statement only under an unused id, with the clock's time (`SubmitEffect`), or a revert |
| `Settlement.RoyaltySettlement.FinalizeStatement` | contracts/src/RoyaltySettlement.sol:100-127 | a submitted statement after its window credits its supplier, or the revert for its status |
| `Settlement.RoyaltySettlement.DisputeStatement` | contracts/src/RoyaltySettlement.sol:134-155 | its supplier disputes a submitted statement inside the window, or a revert |
| `Settlement.RoyaltySettlement.ClaimPayment` | contracts/src/RoyaltySettlement.sol:161-171 | pays the whole balance and zeroes it, or a revert that leaves balance and token alone |
| `Settlement.RoyaltySettlement.SetDisputeWindow` | contracts/src/RoyaltySettlement.sol:229-234 | owner only, between one second and seven days |
| `Settlement.RoyaltySettlement.SetPaused` | contracts/src/RoyaltySettlement.sol:239-248 | owner only, and only a change of state |
| `Settlement.Settlement.SubmitEffect` | contracts/src/RoyaltySettlement.sol:69-94 | exactly when a submission succeeds; the statement has the call's values and the clock's time |
| `Settlement.Settlement.SubmissionOpensWindow` | contracts/src/RoyaltySettlement.sol:69-155 | from a submission until the window has passed the supplier can dispute and nobody finalize, and from then on it is the other way round; the views say so |
| `Settlement.Settlement.FinalizeEffect` | contracts/src/RoyaltySettlement.sol:100-127 | exactly when a finalization succeeds; it credits the supplier alone, at the clock's time |
| `Settlement.Settlement.DisputeEffect` | contracts/src/RoyaltySettlement.sol:134-155 | exactly when a dispute succeeds: by the supplier, before the window ends |
| `Settlement.Settlement.ClaimEffect` | contracts/src/RoyaltySettlement.sol:161-171 | exactly when a claim succeeds; it empties the caller's balance alone and pays it |
| `Settlement.Settlement.AdminEffect` | contracts/src/RoyaltySettlement.sol:229-248 | the owner alone sets the window, up to a week, and pauses, and changes nothing else by it |
| `Settlement.Settlement.SubmitKeepsLedger` | contracts/src/RoyaltySettlement.sol:69-94 | the ledger holds after a submission, and `SubmissionOpensWindow` from when on it can be finalized |
| `Settlement.Settlement.FinalizeKeepsLedger` | contracts/src/RoyaltySettlement.sol:100-127 | balance plus claimed is still the sum of the supplier's finalized statements, each credited once and later than submitted |
| `Settlement.Settlement.DisputeKeepsLedger` | contracts/src/RoyaltySettlement.sol:134-155 | the ledger holds and no balance changes |
| `Settlement.Settlement.ClaimKeepsLedger` | contracts/src/RoyaltySettlement.sol:161-171 | what is claimed leaves the balance and nothing else |
| `Settlement.Settlement.ClaimPays` | contracts/src/RoyaltySettlement.sol:161-171 | the caller receives exactly its balance from the contract's tokens and is left with none |
| `Settlement.Settlement.AdminKeepsLedger` | contracts/src/RoyaltySettlement.sol:229-248 | window changes, pauses and time keep the ledger |
| `Settlement.Settlement.DisputeOrFinalize` | contracts/src/RoyaltySettlement.sol:100-221 | of a submitted unpaused statement never both and, unless the balance overflows, exactly one of dispute and finalize is open; both views agree |
| `Distributor.PaymentDistributor.Deploy` | contracts/src/PaymentDistributor.sol:64-73 | a deployment without treasury reverts, any other gives a fresh contract with capped rates |
| `Distributor.PaymentDistributor.Distribute` | contracts/src/PaymentDistributor.sol:81-110 | the whole new state of distributor and token, or a revert that undoes every transfer |
| `Distributor.PaymentDistributor.AccrueFees` | contracts/src/PaymentDistributor.sol:98-107 | the gateway's fee goes to the protocol when there is no gateway, and an overflow undoes both |
| `Distributor.PaymentDistributor.SetFees` | contracts/src/PaymentDistributor.sol:117-127 | owner only, and the combined rate stays within 1000 basis points |
| `Distributor.PaymentDistributor.SetProtocolTreasury` | contracts/src/PaymentDistributor.sol:133-140 | owner only, no zero address |
| `Distributor.PaymentDistributor.ClaimProtocolFees` | contracts/src/PaymentDistributor.sol:145-155 | pays all protocol fees to the treasury and zeroes them, or a revert |
| `Distributor.PaymentDistributor.ClaimGatewayFees` | contracts/src/PaymentDistributor.sol:160-170 | pays the caller's fees and zeroes them, or a revert |
| `Distributor.PaymentDistributor.SetPaused` | contracts/src/PaymentDistributor.sol:222-231 | owner only, and only a change of state |
| `Distributor.Distributor.DistributeBooks` | contracts/src/PaymentDistributor.sol:98-107 | what a payment books: each rate's share, rounded down, to the protocol and to the gateway if there is one |
| `Distributor.Distributor.DistributeEffect` | contracts/src/PaymentDistributor.sol:81-110 | the caller pays the total, the supplier gets it less both shares, the contract keeps those |
| `Distributor.Distributor.DistributeSucceeds` | contracts/src/PaymentDistributor.sol:81-110 | exactly when a payment succeeds |
| `Distributor.Distributor.SetFeesEffect` | contracts/src/PaymentDistributor.sol:117-127 | the owner sets each rate, up to a tenth together, and the next payment is split by them |
| `Distributor.Distributor.ClaimFeesEffect` | contracts/src/PaymentDistributor.sol:145-170 | exactly when fees can be claimed, whose they are and who is paid |
| `Distributor.Distributor.AdminEffect` | contracts/src/PaymentDistributor.sol:133-140 | the owner alone moves the treasury and pauses, and changes nothing else by it |
| `Distributor.Distributor.SplitAddsUp` | contracts/src/PaymentDistributor.sol:190-198 | with capped rates a split cannot underflow, adds up exactly, and leaves the supplier nine tenths |
| `Distributor.Distributor.FeesAreShares` | contracts/src/PaymentDistributor.sol:195-196 | each fee is its own rate's share, rounded down |
| `Distributor.Distributor.AccrueEffect` | contracts/src/PaymentDistributor.sol:98-107 | the fees booked are the fees taken, each to its own account, nobody else's changed |
| `Distributor.Distributor.DistributeConserves` | contracts/src/PaymentDistributor.sol:81-110 | what the caller pays is what the supplier gets plus what the contract books as fees |
| `Distributor.Distributor.DistributeKeepsSolvency` | contracts/src/PaymentDistributor.sol:81-110 | the contract still holds all accumulated fees, with capped rates |
| `Distributor.Distributor.DistributeIsPaidByCaller` | contracts/src/PaymentDistributor.sol:93-96 | nobody but the caller has less afterwards |
| `Distributor.Distributor.ClaimsKeepSolvency` | contracts/src/PaymentDistributor.sol:145-170 | claims pay treasury and gateway what they are owed, keep the contract solvent and never fail for want of tokens |
| `Distributor.PartsFeeBounds` | contracts/src/PaymentDistributor.sol:195-196 | splitting a payment into n parts never raises a fee and lowers it by less than n units |
| `Chain.DeployedIsSafe` | contracts/src/VerificationEscrow.sol:52-54 | the three deployed contracts start with all ledgers in order |
| `Chain.DeployedState` | contracts/src/RoyaltySettlement.sol:57-62 | the constructors leave the three contracts unpaused and empty, with a window of a day and rates of 200 and 50 |
| `Chain.SwitchCalls` | contracts/src/VerificationEscrow.sol:213-222 | each contract is paused and unpaused by its own owner, and nothing else changes |
| `Chain.SettingCalls` | contracts/src/PaymentDistributor.sol:117-140 | each setting is its contract's owner's, within its bounds, and nothing else changes |
| `Chain.CallIsSafe` | contracts/src/RoyaltySettlement.sol:69-171 | every call by an outside account keeps all three ledgers and solvency |
| `Chain.EveryRunIsSafe` | contracts/src/VerificationEscrow.sol:71-167 | all ledgers hold in every state any sequence of outside calls at any times can reach |
| `Chain.TransferFromIsPaidBy` | contracts/src/VerificationEscrow.sol:76 | no outside account can spend a contract's tokens by allowance |
| `Chain.EveryRunKeepsSupply` | contracts/src/PaymentDistributor.sol:81-170 | over every run of calls by anybody, tokens only change hands |
| `Chain.EveryRunEvolvesStatements` | contracts/src/RoyaltySettlement.sol:69-155 | over every run a statement's hash, supplier, amount and submission time stay, and its status moves at most once, to disputed or finalized |
| `CallLedgers.EscrowIsItsCalls` | contracts/src/VerificationEscrow.sol:71-167 | over every run a brand's balance is the sum of its own deposit calls less its withdrawals and what was recorded against it; so for suppliers and records; a receipt is recorded by one call at most |
| `CallLedgers.EscrowHistoryIsItsCalls` | contracts/src/VerificationEscrow.sol:71-167 | over every run each total of the event history is the sum over the successful calls it is about, with brand and supplier taken from the calls |
| `CallLedgers.SettlementIsItsCalls` | contracts/src/RoyaltySettlement.sol:69-171 | the same for submissions, finalizations and claims, and for claimable balances |
| `CallLedgers.FeesAreTheirCalls` | contracts/src/PaymentDistributor.sol:81-170 | over every run the fees held are the shares of the payments made, at the rates of the time, less what was claimed |
| `StatementTrace.EveryStatementIsExplained` | contracts/src/RoyaltySettlement.sol:69-155 | over every run a statement has the values and the clock time of the owner's call that submitted it, and is open, or was finalized no earlier than that time plus the window in force, or disputed by its supplier before then |
| `StatementTrace.StatementIffSubmission` | contracts/src/RoyaltySettlement.sol:69-94 | over every run a statement exists exactly if one submission of it succeeded, and never two do |
| `Backing.CallIsBacked` | contracts/src/VerificationEscrow.sol:125-149 | every call keeps submissions within transfers and the settlement's tokens above transfers less claims |
| `Backing.EveryRunIsBacked` | contracts/src/VerificationEscrow.sol:89-149 | so does every disciplined run |
| `Backing.SupplierOrder` | contracts/src/RoyaltySettlement.sol:69-171 | for each supplier claimed <= finalized <= submitted <= transferred <= recorded |
| `Backing.ClaimsAreCovered` | contracts/src/RoyaltySettlement.sol:161-171 | the settlement's tokens cover all claimable balances together |
| `Backing.ClaimsNeverFail` | contracts/src/RoyaltySettlement.sol:161-171 | over every disciplined run a claim succeeds exactly when unpaused and non-zero, and no finalization overflows |
| `Backing.FromDeployment` | contracts/src/RoyaltySettlement.sol:161-171 | the order of sums, the cover and the claims, for every disciplined run of freshly deployed contracts |
| `Backing.ExactlyOneIsOpen` | contracts/src/RoyaltySettlement.sol:100-221 | over every disciplined run exactly one of dispute and finalize is open for a submitted statement, with no overflow condition, and the views say which |
| `SettlementProtocol.WriteStep` | services/metering-billing/src/db/index.ts:285-340 | a row update that succeeds, fails or is lost keeps rows and chain in agreement |
| `SettlementProtocol.AdvanceSubmitKeeps` | services/metering-billing/src/routes/blockchain.ts:94-185 | every await of the submit handler, however it ends, keeps the agreement; what each await writes is `SettlementAnswers.AnswersAreTrue` and `FailureAnswers` |
| `SettlementProtocol.AdvanceFinalizeKeeps` | services/metering-billing/src/routes/blockchain.ts:224-289 | every await of the finalize handler, however it ends, keeps the agreement |
| `SettlementProtocol.IncludeKeeps` | contracts/src/RoyaltySettlement.sol:69-127 | a sent transaction may land or revert at any later time |
| `SettlementProtocol.RequestKeeps` | services/metering-billing/src/db/index.ts:245-262 | new rows, the DRAFT to FINALIZED update and new requests keep the agreement |
| `SettlementProtocol.EveryRunAgrees` | services/metering-billing/src/routes/blockchain.ts:94-289 | the agreement holds under every interleaving of handlers, crashes, lost responses and outside transactions |
| `SettlementProtocol.DatabaseAgreesWithChain` | services/metering-billing/src/routes/blockchain.ts:94-289 | PAID means finalized on chain for the row's amount in USDC units and credited once; SUBMITTED means a chain statement exists; a chain statement means the row left DRAFT; no row credits twice |
| `SettlementProtocol.NoSecondAttempt` | services/metering-billing/src/routes/blockchain.ts:113-120 | once a row has left NOT_SUBMITTED, FAILED included, every later submit request is refused |
| `SettlementProtocol.StatementIffSubmitLanded` | services/metering-billing/src/routes/blockchain.ts:142-158 | in every reachable state a row has a chain statement exactly if a submit transaction for it landed; no second one lands, and the supplier is that one's |
| `SettlementProtocol.FailedRow` | services/metering-billing/src/routes/blockchain.ts:174-185 | a FAILED row has a statement exactly if its submission landed, is PAID only if final on chain, and is refused by both handlers |
| `SettlementProtocol.FailedReadOverwrites` | services/metering-billing/src/routes/blockchain.ts:98-100 | a submit request that fails to read its row writes FAILED over any status and touches nothing else |
| `SettlementProtocol.RaceLeavesFailedRow` | services/metering-billing/src/routes/blockchain.ts:142-178 | the loser of two concurrent submissions leaves FAILED over a live statement of the winner's, and nothing else of any row changed |
| `SettlementProtocol.LostResponseLeavesFailedRow` | services/metering-billing/src/routes/blockchain.ts:174-178 | a lost response with a transaction that lands leaves a FAILED row with a live statement |
| `SettlementProtocol.FromDeployment` | services/metering-billing/src/routes/blockchain.ts:94-289 | all of this for every run that starts at deployed contracts and an empty database |
| `SettlementWallets.EveryRunKeepsWallet` | services/metering-billing/src/db/index.ts:285-304 | if all submit requests for a row name one wallet, no interleaving gives handlers, transactions, row or chain another |
| `SettlementWallets.TwoWalletsDisagree` | services/metering-billing/src/routes/blockchain.ts:142-178 | from an empty database, eighteen actions with two requests for one row end with the row FAILED and holding one wallet while its live statement credits the other |
| `SettlementWallets.WalletAgreesExactly` | services/metering-billing/src/routes/blockchain.ts:94-185 | in every reachable state a row with a statement holds the wallet the chain credits, exactly if no two requests for the row can name different wallets |
| `SettlementAnswers.AnswersAreTrue` | services/metering-billing/src/routes/blockchain.ts:94-289 | under every interleaving a submit request answered 200 has itself made its row SUBMITTED with a statement on chain, and a finalize request has made it PAID and FINALIZED with the statement final |
| `SettlementAnswers.SubmitSucceeds` | services/metering-billing/src/routes/blockchain.ts:94-172 | from an empty database, a submission that meets no failure ends SUBMITTED, with its wallet, answered 200 |
| `SettlementAnswers.FinalizeSucceeds` | services/metering-billing/src/routes/blockchain.ts:224-289 | after the dispute window a finalize request ends with the row PAID and FINALIZED and the row's amount in the supplier's balance |
| `SettlementAnswers.GateAnswers` | services/metering-billing/src/routes/blockchain.ts:98-120 | 404 without a row, 400 in the wrong state, otherwise the request goes on with what it read |
| `SettlementAnswers.CheckAnswers` | services/metering-billing/src/routes/blockchain.ts:246-262 | a finalize request sends exactly when the chain's clock allows it |
| `SettlementAnswers.FailureAnswers` | services/metering-billing/src/routes/blockchain.ts:174-185 | an await that fails makes a submit handler write FAILED, and ends a finalize handler with 500 and no write |
| `Statements.BuildBreakdown` | services/metering-billing/src/db/index.ts:160-181 | the loop over the insertion-ordered map is the one-pass grouping of the rows |
| `Grouping.PassGroups` | services/metering-billing/src/db/index.ts:162-181 | one pass finds the keys in order of first appearance and under each the first row, count and sum of exactly its rows |
| `Grouping.GroupsAddUp` | services/metering-billing/src/db/index.ts:183-185 | groups under distinct keys that cover the rows add up to the sum over all rows |
| `Grouping.SumPermuted` | services/metering-billing/src/db/index.ts:150-155 | no sum sees the order of the rows |
| `Statements.GenerateStatement` | services/metering-billing/src/db/index.ts:150-186 | lines are count and sum of exactly their rows, the total is the sum of all prices |
| `Statements.RowAdds` | services/metering-billing/src/db/index.ts:150-186 | one more row adds itself to the totals and to the line under its own key, written out, and to nothing else |
| `Statements.LinesShowFirstRows` | services/metering-billing/src/db/index.ts:166-175 | id, brand and price on a line are those of the first row under its key, the name the registry's or the id |
| `Statements.CurrencyShown` | services/metering-billing/src/db/index.ts:186 | the currency is the first row's, or EUR |
| `Statements.SelectedRows` | services/metering-billing/src/db/index.ts:78-100 | the rows of a period are exactly the supplier's from its start on and before its end |
| `Statements.BreakdownAddsUp` | services/metering-billing/src/db/index.ts:160-185 | no two lines share a key, every row has its line, counts add to total_verifications and subtotals to total_amount |
| `Statements.RowOrderDoesNotMatter` | services/metering-billing/src/db/index.ts:150-185 | totals and every key's count and subtotal are the same for any order of the rows; the currency is `CurrencyDependsOnOrder`'s |
| `Statements.CurrencyDependsOnOrder` | services/metering-billing/src/db/index.ts:186 | the currency is the same for every order of the rows exactly if all rows agree on it |
| `Statements.SelectSplits` | services/metering-billing/src/db/index.ts:78-100 | half-open filters: any sum over [a,c) is the sum over [a,b) plus the sum over [b,c) |
| `Statements.ShownPriceDependsOnOrder` | services/metering-billing/src/db/index.ts:166-177 | for any rows, what a line shows is the same for every order exactly if all rows under its key agree on id, brand and price |
| `Statements.PeriodsAddUp` | services/metering-billing/src/db/index.ts:150-185 | statements for [a,b) and [b,c) add up, in total and key by key, to the one for [a,c) |
| `Statements.SummarizeUsage` | services/metering-billing/src/routes/usage.ts:90-112 | one line per predicate with count and amount of its rows, and the same totals |
| `Statements.SummaryMatchesStatement` | services/metering-billing/src/routes/usage.ts:87-112 | summary and statement of one half-open period agree on totals, on the currency if the rows do, and on every predicate's count and amount when ids are separate |
| `Statements.KeysMeet` | services/metering-billing/src/db/index.ts:163 | two predicate ids can share a key exactly if equal or one continues the other after a colon |
| `Statements.RowsShareLine` | services/metering-billing/src/db/index.ts:163 | exactly which two rows land on one line |
| `Statements.SeparateLines` | services/metering-billing/src/db/index.ts:163 | with separate ids two rows share a line exactly if they share predicate and brand, up to the three spellings of no brand |
| `Statements.LinesArePure` | services/metering-billing/src/db/index.ts:160-181 | every line counts and sums exactly the rows of its predicate and its brand, exactly if no two rows mix |
| `Statements.MixExactly` | services/metering-billing/src/db/index.ts:163 | two rows mix exactly if they share a key but not predicate and brand |
| `Statements.BrandNamedNone` | services/metering-billing/src/db/index.ts:163 | a brand spelled "none" shares the line of the rows without a brand |
| `Statements.MixedLine` | services/metering-billing/src/db/index.ts:163-175 | for every pair of ids that are not separate, rows of both land on one line booked under the first |
| `Nonces.NonceStore.constructor` | services/verify-gateway/src/services/nonce-store.ts:12-14 | an empty store with its window |
| `Nonces.NonceStore.SetWindowMs` | services/verify-gateway/src/services/nonce-store.ts:19-21 | changes the window only |
| `Nonces.NonceStore.CheckAndStore` | services/verify-gateway/src/services/nonce-store.ts:48-64 | true exactly for an unknown nonce, which is then stored with the time |
| `Nonces.NonceStore.Cleanup` | services/verify-gateway/src/services/nonce-store.ts:69-82 | removes exactly the entries older than the cutoff and counts them |
| `Nonces.Verifier.CheckReplay` | services/verify-gateway/src/services/verifier.ts:90-105 | time window first, on both sides and in seconds or milliseconds, then the nonce; only an accepted package changes the store |
| `Nonces.WindowIsTwoSided` | services/verify-gateway/src/services/verifier.ts:90-99 | a stamp in seconds is judged as the same stamp in milliseconds, and the window reaches as far ahead as back |
| `Nonces.Remembers` | services/verify-gateway/src/services/nonce-store.ts:69-82 | over any run a nonce stays stored until it is older than the window |
| `Nonces.ReusesAreApart` | services/verify-gateway/src/services/verifier.ts:90-105 | two accepted uses of one nonce are more than the window apart, however sweeps interleave |
| `Nonces.NoReplay` | services/verify-gateway/src/services/verifier.ts:90-105 | a package made no later than its nonce was stored never passes again |
| `Nonces.ReplayNeedsALead` | services/verify-gateway/src/services/verifier.ts:90-105 | after any run that ends by letting a package through, it can pass again exactly if it is stamped after its nonce was stored |
| `Views.ComposeAuthorityPredicates` | services/dpp-builder/src/services/view-composer.ts:118-137 | the loop keeps, per predicate, the newest row so far in the place of the first |
| `Views.ComposeLegitInterestPredicates` | services/dpp-builder/src/services/view-composer.ts:74-97 | for any row order, exactly the authority's list restricted to open predicates, in the same order |
| `Views.ViewsShowNewest` | services/dpp-builder/src/services/view-composer.ts:82-97 | one entry per predicate, with the result and time of the first row with the latest time and the registry's name, present exactly when the predicate has a row |
| `Views.ViewsKeepOrder` | services/dpp-builder/src/services/view-composer.ts:118-137 | predicates stand in the order in which they first appear among the rows |
| `Views.LatestIsLatest` | services/dpp-builder/src/services/view-composer.ts:126-136 | keeping the strictly newer row ends at the first row with the latest time |
| `Views.ViewsRespectAccess` | services/dpp-builder/src/services/view-composer.ts:195-213 | a result is in the legitimate-interest view exactly when it exists and the access check allows it |
| `Views.UnknownPredicateIsShown` | services/dpp-builder/src/services/view-composer.ts:195-199 | the authority view shows a result of an unknown predicate, which the access check denies |

## Left out

- EdgeAgent.ComputeClaimHash: starts from the leaf a claim parses to; parsing of JSON values, units, timestamps and floating-point numbers is not modelled.
- EdgeAgent.GenerateProof: the steps for each predicate, the bindings and the parsing of the predicate id are left out.
- EdgeAgent.CreateCommitment: keys, signatures and storage are left out, as are their failures.
- Merkle.CeilLog2: is the exact ceiling; the source computes log2 on doubles, which can differ only for lists too long to hold in memory.
- Merkle.Build: the tree is a value, since nothing changes it once built.
- LifecycleCircuit.GuardedTotal: assumes additions that wrap, the weaker reading; where the compiler already traps on overflow the guards are redundant.
- Canonical.HashClaimIgnoresOnlyKeyOrder: the printer of JSON text is a parameter.
- Statements.GenerateStatement: works on declared numbers; a database driver that hands prices over as text is not modelled, nor is the stored row.
- Statements.PeriodsAddUp: timestamps are integers.
- Nonces.NonceStore.Cleanup: the timer that starts it, and a restart that empties the store, are not modelled.
- Views.ComposeAuthorityPredicates: product data, supplier list, expiry filter and audit trail are left out.
- SettlementProtocol.DatabaseAgreesWithChain: says nothing of the wallet column, which `SettlementWallets.WalletAgreesExactly` settles; a row's 32-byte chain id is taken to be the row's id.
- SettlementAnswers.CheckAnswers: the second view call, which only fills in the text of a refusal and can turn its 400 into a 500, is left out.
- SettlementWallets.WalletAgreesExactly: starts from unpaused contracts without statements, as deployed.
- The circuits' binding of product and requester asserts a value equal to itself; there is nothing to prove.
- The two-value circuit template (dual_range) repeats the range argument twice.
- `emergencyWithdraw`, ownership transfer, re-entrancy guards and chain reorganizations.
- BLAKE3, keccak256, signatures, encryption and the proving system itself.
- HTTP routes, schemas, logging, message queues, the user interface and deployment.
