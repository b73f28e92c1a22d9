# Shielded-note replay: a verified model

The repository replays a shielded-note protocol from Bitcoin blocks. A carrier
transaction publishes an envelope in an OP_RETURN output; replay turns envelopes
into leaves of a Merkle tree, a nullifier set and an event log; a wallet scans
that log, selects notes, proves a transfer and publishes it; an operator pays
peg-out requests. This project models that logic and proves it: from the field
and curve loops of the browser verifier up to conservation over whole runs, sync
against a changing chain, and at-most-once payouts.

`dafny verify dfyconfig.toml` checks everything.

## How the modules fit

| layer | modules |
|---|---|
| numbers and curve | Field, Binary, Bytes, Sqrt, Edwards, Group, Extended, PointCodec, CurveCodec, Diversify, LowOrder |
| wire | Wire (values), WireIo (the reader and the serialisers in place), WireLaws |
| notes and relation | Note, Circuit, Binding, Commitments, Merkle |
| replay | Replay (rules on values), Pruning, EventLog, Provenance, Conservation, Nullifiers |
| chain | Carrier, Chain, MockChain (in place), Rooms, Indexer (the state in place, sync) |
| wallet | Scanning, Resume, Completeness, Receipts, SentRecords, Plaintexts, Sorting, Selection, Building, Acceptance, Honesty, Payouts, Minting, Wallet (in place), Solvency, Treasury |

Code that changes things step by step is a class or a loop here too: the note
tree, the state, the mock chain, the byte reader, the wallet, `fsqrt`, `ptMul`,
the fee loop. Each method is tied by its contract to a function on values, and
the theorems are about those functions.

## Main results

1. **No inflation** (`Conservation.NoInflation`, `Conservation.MintedIsDeposited`):
   after any sequence of blocks the values of the leaves not spent by an enabled
   input sum exactly to the accepted mints, no position is spent twice, and the
   total never exceeds what was paid to the vault, where a mint counts exactly the
   outputs paying it (`Replay.VaultConcat`). A wallet that tracks the state
   holds no more than that (`Solvency.BalanceIsBacked`), and all payouts together,
   one for each nullifier, total no more than that (`Treasury.PayoutsAreBacked`).
2. **Sync refines replay from scratch** (`Indexer.State.Sync`): whatever happened
   to the chain between calls, and even when it changes once during a call, a
   sync that succeeds leaves the state a fresh replay of the chain the source now
   has; one that fails leaves an exact replay of a prefix.
3. **Pruning is invisible** (`Pruning.PruningInvisible`,
   `Pruning.DecisionsUnchanged`, `Pruning.RetainedMaps`).
4. **Scanning is resumable** (`Resume.TwoScansAreOne`, `Resume.ScanTwice`,
   `Wallet.Wallet.Scan`), never reports a leaf mismatch on a reachable state, and is
   complete exactly when no two of the wallet's notes share a transaction and an
   index (`Completeness.ScanComplete`). A payment adds its value to the balance
   (`Receipts.PaymentIsReceived`), and sent records are exactly the payments recovered
   (`SentRecords.SentIff`).
5. **What a send relays is accepted** in every block of the window that has not
   seen its nullifiers (`Wallet.SentIsAccepted`, `Acceptance.BuiltCarrierMoves`), its
   witness meets the transfer relation (`Honesty.HonestWitness`), and its inputs are
   locked in the running wallet iff the server's reply arrived, and on disk iff the
   save also landed (`Wallet.Wallet.Send`). A mint it relays is granted and found by
   the next scan for exactly the amount (`Wallet.Wallet.Mint`,
   `Minting.MintIsRecorded`). Acceptance as such is characterised for every transfer
   (`Acceptance.AcceptedIff`).
6. **At most one payout per nullifier**, across crashes at any save or broadcast,
   lost replies and rebuilt replays (`Wallet.Wallet.ProcessPayouts`); a payout that
   confirmed, or is pending and listed in the file, is never repeated, whatever else a
   later run's wallet file says (`Wallet.PaidNeverAgain`). Each pays the request less
   exactly the size of its full carrier at the rate (`Payouts.BuildPayout`), and on a
   calm source every due request the vault can pay is attempted.
7. **Tonelli-Shanks is totally correct** (`Sqrt.FSqrt`), with the table set-up
   (`Sqrt.Load`) proved to find a nonresidue.
8. **The diversified-base gadget is sound and complete** (`Diversify.GadgetSound`,
   `Diversify.SatisfiableIff`, `Diversify.CheckGadget`).
9. **The wire format is canonical and self-delimiting** (`WireLaws.ParseIff`,
   `WireLaws.Delimited`, `WireLaws.StructureIsCanonical`), over a point codec that
   is proved sound and shown not injective at x = 0 (`CurveCodec.IdentityTwice`).

10. **A note is spent only by itself** (`Nullifiers.SpentOnlyByItself`,
   `Receipts.SpentExactly`): a nullifier fixes key, seed and position, so over any run
   a wallet's note is spent iff an accepted transfer had an input of exactly those, or
   it was burned to the operator.

## What is assumed

Every hypothesis is a named predicate in a `requires`; nothing is an axiom.

- `Sqrt.OddPrime`, `Edwards.ValidCurve`: the modulus is an odd prime, a is a square
  and d is not. Fermat, square roots, completeness and closure of the addition law
  are proved from these.
- `Group.Associative`: associativity of the curve law. `Note.Cofactor8`: eight times
  any curve point lies in the subgroup of prime order. `Diversify.ValidBase`: 7 is
  not a square and a is -1.
- `Binding.GoodQueries(s, q)`: on the queries in q the hash has no collision, no
  leaf hashes to zero, no ephemeral scalar is zero, truncated viewing keys do not
  collide and no diversifier's search starts on a low point (`LowOrder.LowStart`).
  It speaks of a set q of queries, not of all inputs: over a finite field global
  injectivity would be contradictory. `Conservation.RunCovered` says that q holds
  the queries of the run, `Nullifiers.InputsCovered` that it holds those of every
  nullifier derived in it.
- `Conservation.Sound`: the verifier accepts only statements with a witness.
- `Wire.SoundCodec`, `Acceptance.FullCodec`: the point decoder returns only encodable
  points, and subgroup points are encodable. `CurveCodec.CodecSound` proves both for
  the curve's own codec. `Wire.InjectiveCodec` is a hypothesis of the structural
  canonicality results only; it fails for that codec exactly at x = 0.
- `Chain.Committing`: transaction ids and block hashes are injective in what they
  commit to.
- `Rooms.Roomy`: what the transactions of a block pay the vault fits 64 bits, and the
  leaves the chain really appends do not overfill the tree. Where they would, the
  program panics.
- `Treasury.BurnsKept`: the operator never spent a note burned to it. Its wallet never
  does (`Treasury.BurnedNeverSpendable`).

## Model
| member | source | states |
|---|---|---|
| Field.Fermat | js/shielded-verify.js:86-89 | a^(p-1) = 1 for a nonzero below a prime modulus p, by the product of the units; `finv` relies on it |
| Field.InvIsInverse | js/shielded-verify.js:86-89 | a^(p-2) is the inverse of a nonzero a |
| Field.HalfPower | js/shielded-verify.js:622-625 | a nonzero element's (p-1)/2 power is 1 or -1 |
| Field.RootsOfOne | js/shielded-verify.js:93-105 | only 1 and -1 square to 1 |
| Sqrt.FPow | js/shielded-verify.js:75-84 | square-and-multiply computes the power, for every base and exponent |
| Sqrt.FInv | js/shielded-verify.js:86-89 | the result is the inverse of a nonzero argument |
| Sqrt.RootBound | js/shielded-verify.js:622-625 | a polynomial has no more roots than its degree; counting behind the nonresidue search |
| Sqrt.NonresidueExists | js/shielded-verify.js:622-625 | some element's half power is -1, so the search for z ends |
| Sqrt.Load | js/shielded-verify.js:622-625 | finds q odd, s and z with p - 1 = q 2^s and z a nonresidue |
| Sqrt.EulerCriterion | js/shielded-verify.js:93-105 | an element is a square iff it is zero or its half power is 1 |
| Sqrt.FSqrt | js/shielded-verify.js:93-105 | terminates on every input below p, returns a root iff one exists and null iff none does |
| Sqrt.Advance | js/shielded-verify.js:93-105 | one round keeps r^2 = n t and strictly lowers the order of t |
| Sqrt.SquareClass | js/shielded-verify.js:93-105 | of n and z n exactly one is a square, for n nonzero |
| Edwards.Complete | js/shielded-verify.js:198-201 | neither denominator of the addition law vanishes on curve points |
| Edwards.Closed | js/shielded-verify.js:167-172 | the sum of two curve points is on the curve |
| Group.SumIdentity | js/shielded-verify.js:164-164 | (0, 1) is neutral |
| Group.FoldMul | js/shielded-verify.js:181-188 | the m-fold sum of the n-fold sum is the mn-fold sum |
| Group.FoldSwap | src/note.rs:143-152 | two scalars applied in either order agree, as sender and recipient need |
| Group.FoldInjective | src/keys.rs:322-324 | below the order, different scalars of a generator give different points |
| Group.MultipleGenerates | src/keys.rs:322-324 | a nonzero multiple of a generator generates |
| Extended.KeepsT | js/shielded-verify.js:167-179 | addition and doubling both keep T Z = X Y |
| Extended.AddRepresents | js/shielded-verify.js:167-172 | extended addition represents the affine sum |
| Extended.DoubleIsAdd | js/shielded-verify.js:174-179 | doubling is minus-scaled self-addition, coordinate by coordinate |
| Extended.DoubleRepresents | js/shielded-verify.js:174-179 | doubling represents twice the affine point |
| Extended.SameAffine | js/shielded-verify.js:167-179 | `ptDouble(p)` and `ptAdd(p, p)` are one affine point |
| Extended.PtMul | js/shielded-verify.js:181-188 | the double-and-add loop represents the k-fold sum for every k |
| Extended.MulAffine | js/shielded-verify.js:190-195 | multiplication back in affine form is the k-fold sum |
| PointCodec.XsFromY | js/shielded-verify.js:204-211 | both x of a row, smaller first, or null exactly when the row has no curve point |
| PointCodec.DecodePoint | js/shielded-verify.js:215-225 | returns the one subgroup point the bytes decode to, or null when there is none |
| PointCodec.DecodesUnique | js/shielded-verify.js:215-225 | bytes decode to at most one point, whichever root the square root returns |
| PointCodec.RoundTrip | js/shielded-verify.js:227-231 | every subgroup point is what its encoding decodes to |
| PointCodec.Canonical | js/shielded-verify.js:215-231 | accepted bytes re-encode to themselves iff not (x = 0 with the sign bit set) |
| PointCodec.EncodeThenDecode | js/shielded-verify.js:215-231 | decode after encode returns the point |
| CurveCodec.CodecSound | src/keys.rs:90-102 | the curve's codec meets what the envelope laws assume, and encodes every subgroup point |
| CurveCodec.CanonicalIff | js/shielded-verify.js:215-231 | the codec is canonical on a string iff the free sign bit is not used |
| CurveCodec.IdentityTwice | js/shielded-verify.js:215-231 | the identity has a second accepted encoding, so the codec is not injective |
| CurveCodec.TwinCaught | src/envelope.rs:286-288 | a mint to the identity's second encoding passes the structure and is refused by the re-serialise check |
| Diversify.DiversifyHash | src/keys.rs:145-178 | the native search returns the base of the first candidate on the curve with its even x, or None when there is none |
| Diversify.BrowserDiversifyHash | js/shielded-verify.js:242-255 | the browser's search computes the same base |
| Diversify.CheckGadget | src/circuit.rs:115-169 | the constraint loop accepts an assignment iff it selects the first curve candidate, witnesses the earlier ones off the curve and has even x; the product-zero case included |
| Diversify.GadgetSound | src/circuit.rs:115-169 | every satisfying assignment yields the native base: same k, same even x, same y |
| Diversify.GadgetComplete | src/circuit.rs:115-169 | the native roots give a satisfying assignment |
| Diversify.SatisfiableIff | src/circuit.rs:115-169 | the constraints are satisfiable iff the native search succeeds |
| LowOrder.EightIsIdentity | src/keys.rs:145-178 | eight times a curve point is the identity iff the point is on an axis or on the diagonal y^2 = a x^2 |
| LowOrder.IdentityBaseIff | src/keys.rs:145-178 | the base of a hash output is the identity iff the first candidate on the curve is such a low point |
| LowOrder.LowOutputs | src/keys.rs:145-178 | hash outputs 0, 1 and p - 1 start on a low point |
| Bytes.LeToLe | src/keys.rs:40-55 | little-endian bytes of a number in range read back as it |
| Bytes.ToLeLe | src/keys.rs:40-55 | a string is the little-endian bytes of its own value |
| Wire.FrFromBytesIff | src/keys.rs:47-53 | the canonical check accepts exactly the 32-byte integers below the modulus |
| Wire.CompactSizeRead | src/envelope.rs:92-104 | a pushed count reads back, in each of its three forms |
| Wire.CompactSizeOnly | src/envelope.rs:307-325 | a count is accepted only in its shortest form |
| WireIo.Reader.Take | src/envelope.rs:298-305 | the cursor advances by n and yields those bytes, or stays put on truncation |
| WireIo.Reader.CompactSize | src/envelope.rs:307-325 | the in-place reader is the parser's count on the remaining bytes |
| WireIo.ParseBytes | src/envelope.rs:211-290 | the cursor-driven parser computes the parse function, every error included |
| WireIo.SerialiseBody | src/envelope.rs:108-133 | the pushing serialiser computes the body bytes |
| WireIo.PushCompactSize | src/envelope.rs:92-104 | appends the count's bytes |
| WireLaws.RoundTrip | src/envelope.rs:135-139 | parsing a well-formed envelope's bytes gives it back, for any payout script that fits |
| WireLaws.EmptyScriptRefused | src/envelope.rs:124-131 | a payout with an empty script is written but refused as too short; otherwise-well-formed transfers round-trip iff payout is absent or the script nonempty |
| WireLaws.ParseIff | src/envelope.rs:211-290 | bytes parse to e iff e is well formed and serialises to them |
| WireLaws.Delimited | src/envelope.rs:283-285 | an accepted envelope followed by anything is rejected for trailing bytes |
| WireLaws.StructureIsCanonical | src/envelope.rs:211-285 | with an injective point codec the structure alone already forces the canonical bytes |
| WireLaws.TwoStringsTwoEnvelopes | src/envelope.rs:211-285 | two strings never parse to one envelope, without the final check |
| WireLaws.CheckCatchesSecondEncoding | src/envelope.rs:286-288 | the final check is what refuses a second point encoding |
| WireLaws.PackBytes | src/poseidon.rs:63-70 | the chunking loop computes the packed elements |
| WireLaws.PackInjective | src/poseidon.rs:63-70 | different byte strings are absorbed as different element sequences |
| Merkle.MerkleTree.constructor | src/tree.rs:35-46 | the new tree is the empty tree, its empty-subtree table filled bottom up |
| Merkle.MerkleTree.Get | src/tree.rs:48-50 | a lookup is the zero-padded subtree hash of its leaf range |
| Merkle.MerkleTree.RootHash | src/tree.rs:52-54 | the root is the recursive root of the leaves |
| Merkle.MerkleTree.Append | src/tree.rs:65-79 | updating one path per level keeps the table the tree over one more leaf |
| Merkle.MerkleTree.Leaf | src/tree.rs:81-83 | the leaf at a position, None beyond the end |
| Merkle.MerkleTree.Path | src/tree.rs:85-96 | the siblings of a position, folding to the root |
| Merkle.MerkleTree.Leaves | src/tree.rs:98-100 | all leaves in order |
| Merkle.MerkleTree.Prefix | src/tree.rs:103-109 | the tree as it was after the first n appends |
| Merkle.MerklePath.FoldRoot | src/tree.rs:112-125 | the folding loop computes the path's root |
| Merkle.PathReachesRoot | src/tree.rs:112-125 | a path of siblings folds the leaf to the root |
| Merkle.PathSound | src/tree.rs:112-125 | where the node hash does not collide, any path below 2^32 reaching the root carries the leaf at its position |
| Note.ScalarFromField | src/keys.rs:77-88 | folding the low bits from the top modulo the order gives exactly the low 250 bits |
| Note.PackUnpack | src/note.rs:88-105 | unpacking a packed value and diversifier gives them back |
| Note.UnpackPack | src/note.rs:95-105 | whatever unpacks was packed from it |
| Note.SealUnseal | src/note.rs:111-139 | unsealing gives n iff the ciphertext is the seal of n |
| Note.RecipientIff | src/note.rs:143-152 | the recipient decrypts to n iff encrypting n to the recipient's address gives this ephemeral key and ciphertext |
| Note.SenderIff | src/note.rs:155-165 | with any scalar, the sender decrypts to n iff encrypting n under that scalar's shared point gives these; with the seed's own, iff encrypting n does |
| Note.DecryptsOk | src/note.rs:131-139 | what decryption returns is in range |
| Note.FoundNoteRebuildsLeaf | src/circuit.rs:391-409 | a note found by decryption rebuilds the leaf it was found under |
| Circuit.Conserves | src/circuit.rs:233-346 | the 64-bit range checks turn the field equation into an integer one, and a disabled input carries nothing |
| Circuit.GadgetBaseIsGD | src/circuit.rs:233-260 | the base the circuit forces is the native one |
| Circuit.EncryptVarIsEncrypt | src/circuit.rs:180-212 | encryption in the circuit is the native encryption |
| Circuit.CircuitLeafIsInputLeaf | src/circuit.rs:391-409 | the leaf the wallet rebuilds is the one the circuit would |
| Binding.SealBinds | src/note.rs:111-117 | one ciphertext has one key and one plaintext |
| Binding.CiphertextBinds | src/note.rs:119-129 | equal ciphertexts carry equal values, diversifiers and seeds under one shared point |
| Binding.KeyBinds | src/keys.rs:261-275 | an address key determines the spending key |
| Binding.LowKeysMeet | src/keys.rs:261-275 | from a low start every viewing key has one address key |
| Binding.KeysDifferIff | src/keys.rs:261-275 | the address keys of a diversifier determine the viewing key iff its search does not start low |
| Binding.LeafBinds | src/circuit.rs:233-300 | any two openings of one leaf agree on value, seed and spending key, mint or ciphertext |
| Binding.NullifierBinds | src/note.rs:201-203 | any two openings of one leaf at one position have one nullifier |
| Nullifiers.NullifierFixes | src/note.rs:201-203 | two nullifiers are equal iff their keys, seeds and positions are: one nullifier per note and position |
| Nullifiers.NullifierIff | src/indexer.rs:359-410 | over any run a nullifier is in the set iff some accepted transfer has an input, enabled or not, of that nullifier |
| Nullifiers.SpentOnlyByItself | src/wallet.rs:555-561 | an own note's nullifier is in the set iff an accepted transfer had an input of its own key, seed and position: spending anything else leaves it out |
| Nullifiers.SpendsChosen | src/wallet.rs:714-772 | of the wallet's notes its own transfer puts exactly the chosen ones in the set, unless the dummy input has a note's seed and position |
| Binding.ValueBinds | src/note.rs:169-199 | a leaf is opened only for the value it was created with |
| Binding.OpeningNotEmpty | src/tree.rs:48-50 | no opened leaf is the empty leaf |
| Commitments.BodyBinds | src/envelope.rs:142-146 | two transfers have one body hash iff they are equal but for their proofs |
| Commitments.DigestBinds | src/envelope.rs:149-175 | and one statement digest iff so: a proof speaks of one anchor, one payout, one recovery ciphertext |
| Commitments.LeafIsOneOutput | src/note.rs:169-186 | equal output leaves come from one transfer, up to its proof, and one output of it |
| Commitments.TagsDiffer | src/poseidon.rs:19-35 | hashes under different domain tags never agree |
| Commitments.StreamsDiffer | src/note.rs:111-117 | the two halves of a plaintext are masked by different elements |
| Conservation.StatementBinds | src/envelope.rs:159-175 | the digest ties the published nullifiers and ciphertexts to the witness |
| Conservation.SpendIsGood | src/indexer.rs:359-410 | an enabled input of an accepted transfer opens an existing leaf for its value at a position not spent before |
| Conservation.TransferConserves | src/indexer.rs:359-410 | an accepted transfer keeps the books: unspent value is unchanged |
| Conservation.MintConserves | src/indexer.rs:412-434 | an accepted mint adds exactly the value paid |
| Conservation.RunConserves | src/indexer.rs:289-327 | every block of every run keeps the invariant |
| Conservation.NoInflation | src/indexer.rs:359-434 | over any run, unspent leaves are worth exactly the accepted mints and no position is spent twice |
| Conservation.MintedIsDeposited | src/indexer.rs:345-353 | accepted mints never exceed what the replayed transactions paid the vault |
| Replay.VaultNothing | src/indexer.rs:345-353 | outputs that pay others are worth nothing to a mint |
| Replay.VaultOne | src/indexer.rs:345-353 | an output paying the vault is worth its value |
| Replay.VaultConcat | src/indexer.rs:345-353 | and the worth of outputs is additive, so together it counts exactly what pays the vault |
| Solvency.NoteIsBacked | src/wallet.rs:398-404 | a tracked unspent note is worth what its leaf was created with, at a position never spent |
| Solvency.BalanceIsBacked | src/wallet.rs:398-404 | on any reachable state a tracking wallet's balance is at most the accepted mints, so at most what the vault was paid |
| EventLog.MoveIff | src/indexer.rs:331-355 | a transaction asks for a transfer iff it carries the one encoding of a well-formed transfer |
| EventLog.DepositIff | src/indexer.rs:331-355 | a transaction asks for a mint iff it carries the one encoding of a well-formed mint, and for exactly what its outputs pay the vault |
| Pruning.PruningInvisible | src/indexer.rs:313-325 | pruning after every block equals pruning the full history once, rejections included |
| Pruning.DecisionsUnchanged | src/indexer.rs:367-377 | no accept or reject decision of the next block, at any point in it, depends on what was pruned |
| Pruning.RetainedMaps | src/indexer.rs:313-322 | exactly which heights are kept, the last 110 and the initial one, and that each kept root is that of the first leaf_counts leaves, as after that block |
| EventLog.ReplayLogged | src/indexer.rs:393-434 | the event log determines the tree and the nullifier set of every reachable state |
| EventLog.EventLeaves | src/indexer.rs:393-434 | each event's leaves are at the positions it records |
| Provenance.TxOutcome | src/indexer.rs:304-355 | a transaction without a claimed payload changes nothing; any other leaves exactly one event or one rejection, under its id and its block's height |
| Provenance.EventHasSource | src/indexer.rs:304-434 | every event of a reachable state records the payload of a transaction of one of its blocks, under that transaction's id and that block's height, and a mint for exactly what that transaction pays the vault |
| Indexer.State.Fresh | src/indexer.rs:175-193 | the initial state |
| Indexer.State.AcceptTransfer | src/indexer.rs:359-410 | the checks in order with their reasons, and the whole new state on acceptance |
| Indexer.State.AcceptMint | src/indexer.rs:412-434 | a mint is refused iff it pays the vault nothing; otherwise one leaf and one event |
| Indexer.State.ReplayTx | src/indexer.rs:331-355 | one transaction in place is the replay function's step |
| Indexer.State.CloseBlock | src/indexer.rs:313-325 | sealing and pruning in place |
| Indexer.State.ReplayBlock | src/indexer.rs:289-327 | on success the block's replay and the block's hash did not move; on failure the state is untouched |
| Indexer.Fetch | src/indexer.rs:295-302 | a fetched block is the source's block at that height, whatever changed above it meanwhile |
| Indexer.State.Rejoin | src/indexer.rs:268-276 | after the tip-hash comparison the state is a replay of the source's present chain, at its own height if its tip hash is still there and else at the start |
| Indexer.State.CatchUp | src/indexer.rs:277-283 | block after block, the state stays a replay of the present chain, and the count is of the blocks replayed |
| Indexer.State.CheckChain | src/indexer.rs:258-266 | a source without the deployment's activation hash is refused |
| Indexer.State.Sync | src/indexer.rs:257-284 | success leaves a fresh replay of the present chain up to the tip read and returns the number of blocks replayed since the height kept; failure leaves an exact replay of a prefix; a calm source on the right chain never fails |
| Indexer.State.Save | src/indexer.rs:224-235 | the file holds the state's data |
| Indexer.Load | src/indexer.rs:195-222 | refused iff the height precedes activation; otherwise every field is restored and the tree rebuilt |
| Rooms.TipMatches | src/indexer.rs:268-276 | a state whose tip hash is the chain's is a replay of that chain, wherever it came from |
| Rooms.KeptIff | src/indexer.rs:268-276 | what was replayed is kept iff it is what the source's present chain replays to |
| Rooms.NextReplay | src/indexer.rs:289-327 | one more block extends the replay even if the chain moved above it |
| Rooms.RoomForNext | src/indexer.rs:395-399 | while the leaves the chain appends fit, the tree has room for the next block |
| Chain.HashCommits | src/chain/mock.rs:71-96 | equal hashes at a height mean equal blocks at every height below |
| MockChain.MockChain.Mine | src/chain/mock.rs:54-61 | appends the block, rehashes, and drops its transactions from the mempool |
| MockChain.MockChain.Replace | src/chain/mock.rs:65-69 | replaces one stored block and rehashes from there |
| MockChain.MockChain.Rehash | src/chain/mock.rs:71-89 | restores every hash from a height on |
| MockChain.MockChain.BlockHash | src/chain/mock.rs:125-133 | the chain's hash at a height, an error beyond the tip |
| MockChain.MockChain.BlockTxids | src/chain/mock.rs:135-150 | the ids as they were before the hook ran, and the chain after it |
| MockChain.MockChain.Transaction | src/chain/mock.rs:152-160 | the known transaction with that id, an error iff there is none |
| MockChain.MockChain.Broadcast | src/chain/mock.rs:162-171 | relayed or not; what was relayed is answered with its id exactly when the reply was not dropped |
| MockChain.RelayedUnanswered | src/chain/mock.rs:162-171 | a concrete chain on which a transaction is relayed and the reply is an error |
| MockChain.MockChain.ListUnspent | src/chain/mock.rs:173-189 | exactly the unspent outputs of known transactions paying the script, in chain order |
| MockChain.MockChain.History | src/chain/mock.rs:191-204 | exactly the transactions paying or spending from the script, with heights |
| Carrier.PushRoundTrip | src/chain.rs:319-322 | a written push reads back as its payload; read for its shortest form, unless it is a one-byte number |
| Carrier.CarrierDelivers | src/chain.rs:409-441 | a carrier with one OP_RETURN delivers exactly its payload |
| Carrier.CarriedIff | src/chain.rs:409-441 | a transaction carries b iff it has exactly one OP_RETURN output and its script is the one written for b, one shortest push and nothing else, b not being a one-byte number |
| Carrier.FaultyIff | src/chain.rs:409-441 | it is faulty iff it carries nothing and some OP_RETURN output claims the magic |
| Carrier.ClaimsIff | src/chain.rs:416-423 | a written script claims the magic iff its payload starts with it |
| Carrier.Select | src/chain.rs:327-335 | the inputs are the shortest prefix reaching the target, or all |
| Carrier.BuildCarrier | src/chain.rs:309-378 | Ok iff the payload fits and the fee settles within six passes without a sum overflowing or the funds falling short; then inputs equal outputs plus paid, paid covers rate times size, change is absent or at least 546; insufficient funds only when all outputs fall short; FeeDidNotConverge iff the fee rose on each of the six passes |
| Carrier.MadeOnce | src/chain.rs:309-378 | the carrier made of given coins, and the fee it reports, are determined |
| Carrier.MadePays | src/chain.rs:309-378 | it balances over the coins with change back, at a fee of at least rate times its size, and what it reports paid is inputs less outputs |
| Carrier.FewInputsSettle | src/chain.rs:327-378 | with at most five outputs to spend, six passes settle the fee |
| Carrier.SixCoinsUnsettled | src/chain.rs:375-377 | six outputs over which the fee rises on every pass although the next would settle |
| Scanning.LogScans | src/wallet.rs:454-487 | no scan of a reachable log meets a corrupt event or a leaf mismatch |
| Scanning.ScanOk | src/wallet.rs:454-549 | every recorded note rebuilds its replayed leaf, and the nullifier set is theirs |
| Scanning.ScanBeside | src/wallet.rs:454-549 | scanning neither looks at flags and locks nor touches notes already held |
| Resume.ScanResumes | src/wallet.rs:407-570 | from a wallet tracking a prefix, or whose cursor event changed, a scan leaves what one scan from activation would, locks aside |
| Resume.TwoScansAreOne | src/wallet.rs:407-570 | scanning in two steps, with any locking between, gives the notes, spent flags, sent records and cursor of one scan by a new wallet |
| Resume.ScanTwice | src/wallet.rs:407-570 | a second scan of the same state changes nothing |
| Resume.LapseIsSafe | src/wallet.rs:555-567 | a lock lapses only when no later block can accept a transfer under its anchor |
| Resume.LapseIff | src/wallet.rs:555-567 | a spent note is released; an unspent one's lock is kept iff some block from the scanned height on can accept its anchor |
| Resume.LapsesOnTimeIff | src/wallet.rs:562-567 | the lock lapses as soon as no later block can accept the anchor iff the height is not the last of the anchor's window |
| Resume.LapsesLate | src/wallet.rs:562-567 | anchored at 500 and scanned at 600 a lock stays, though no later block can accept the anchor |
| Resume.KeptIff | src/wallet.rs:424-445 | tidying drops a note iff the tree no longer holds the leaf it rebuilds |
| Resume.ScanAdds | src/wallet.rs:447-570 | a resumed scan keeps every note with its lock, but for spent flags and lapsed locks, and adds the new ones as one scan from activation records them |
| Completeness.ScanRecords | src/wallet.rs:454-587 | a scan from activation records exactly the wallet's notes, in order, except those whose transaction and index an earlier one has |
| Completeness.ScanComplete | src/wallet.rs:574-587 | every output that decrypts to a positive value and every mint to the wallet is recorded at its position iff no two share a transaction and an index |
| Completeness.NothingMissed | src/wallet.rs:454-587 | where the log's transaction ids are distinct, the scan misses nothing |
| Completeness.MintedTwice | src/wallet.rs:574-587 | one funded mint carrier in two blocks makes two notes, of which the scan records the first |
| Receipts.SpentIff | src/wallet.rs:496-561 | a tracked note is spent iff its nullifier was published, or it is output 0 of a transfer with a payout and this is the operator |
| Receipts.SpentExactly | src/wallet.rs:496-561 | on a reachable state iff an accepted transfer had an input of its own key, seed and position, or so burned |
| Receipts.PaymentIsReceived | src/wallet.rs:488-513 | a payment of v > 0 in a transfer not scanned before, its nullifier unpublished and not burned, is held unspent and unlocked after the scan and adds exactly v to the balance |
| Receipts.MintIsReceived | src/wallet.rs:456-478 | a mint to one of the wallet's addresses adds exactly what it paid the vault |
| SentRecords.SentIff | src/wallet.rs:514-547 | a tracking wallet lists as sent exactly the payments recovered from transfers that spend its notes, where the log's transaction ids are distinct |
| SentRecords.OwnTransferListed | src/wallet.rs:514-547 | a wallet that can open its own transfer's recovery ciphertext lists the amount and to whom, and its change |
| Plaintexts.TrackedPlain | src/note.rs:131-139 | every note a tracking wallet holds has a 64-bit value, an 11-byte diversifier and a reduced seed |
| Wallet.Wallet.Save | src/wallet.rs:344-365 | the disk file is replaced as a whole exactly when the save lands, whatever the call reports |
| Wallet.Wallet.Record | src/wallet.rs:574-587 | a note is added unless empty or known by position or by source and index |
| Wallet.Wallet.ScanEvent | src/wallet.rs:454-549 | one event's checks and effects in place |
| Wallet.Wallet.Tidy | src/wallet.rs:409-445 | starts over when the cursor event changed, and drops records whose leaf is gone |
| Wallet.Wallet.Scan | src/wallet.rs:407-570 | the whole scan in place: the scanned file on success, the first trouble otherwise, saved or not |
| Wallet.Wallet.Balance | src/wallet.rs:398-404 | the sum of the unspent unlocked notes, an error iff it overflows |
| Wallet.Wallet.Unlock | src/wallet.rs:591-617 | releases exactly the carrier's notes, and refuses while the chain knows the carrier unless forced; on a source that answers, refused iff so |
| Wallet.LocksAside | src/wallet.rs:830-833 | locking and releasing leave a wallet tracking what it tracked |
| Wallet.LockThenRelease | src/wallet.rs:605-616 | locked inputs cannot be selected again, and releasing them gives the notes back as they were and counts exactly the inputs |
| Selection.SelectInputs | src/wallet.rs:689-713 | fails for balance iff no one or two spendable notes cover the amount; uses one iff one suffices |
| Sorting.SortDescending | src/wallet.rs:696-696 | the one descending permutation that keeps the order of equal values |
| Building.Evaluate | src/circuit.rs:360-387 | the native statement of a witness, None iff an output diversifier has no base |
| Building.PrepareInputs | src/wallet.rs:675-728 | selection under the anchor with a membership path for each chosen note, every failure explained |
| Building.ProveTransfer | src/wallet.rs:760-799 | fresh distinct nullifiers, encrypted outputs, recovery records sealed, and a proof that verifies; every failure has its cause |
| Building.BuildTransfer | src/wallet.rs:663-805 | what a built transfer is and says; insufficient balance is reported iff unaffordable, and every other failure has its cause, so without one it is built |
| Acceptance.RootStays | src/indexer.rs:319-320 | a root still in the window keeps its value as blocks are added |
| Acceptance.AcceptedIff | src/indexer.rs:359-392 | in any block of any run a transfer is accepted iff it is anchored one to a hundred blocks back and not before activation, its nullifiers differ and are unpublished, and its proof verifies against the tree's root as the block at the anchor left it |
| Acceptance.BuiltIsAccepted | src/indexer.rs:367-392 | a transfer built at height H passes every check at H+1 to H+99 of any extension without its nullifiers |
| Acceptance.BuiltWellFormed | src/envelope.rs:106-139 | a built transfer is well formed on the wire |
| Acceptance.CarrierAsks | src/wallet.rs:820-829 | any transaction carrying a transfer's bytes asks replay for exactly it |
| Acceptance.BuiltCarrierMoves | src/indexer.rs:331-410 | put together: any transaction carrying a built transfer's bytes moves the notes in any block of the window |
| Honesty.TrackedCanBuild | src/wallet.rs:675-728 | on a reachable state a tracking wallet can always anchor, finds no stale note, and its spendable notes are unspent |
| Honesty.AnchorKept | src/wallet.rs:675-688 | the anchor's root is retained and rebuilt iff a block was replayed or activation is at genesis |
| Honesty.WitnessSatisfies | src/circuit.rs:214-348 | the witness of a built transfer whose plaintexts are in range satisfies the relation for the public inputs replay verifies, each output key in the prime-order subgroup |
| Honesty.HonestWitness | src/circuit.rs:214-348 | so does that of every transfer a tracking wallet builds on a reachable state: the ranges follow from what it scanned |
| Wallet.Wallet.Fund | src/wallet.rs:645-656 | what was relayed delivers the payload after the extra outputs, is the carrier made of the funding key's coins at the rate with change back to it, and is reported as out with that fee exactly when the server's reply arrived; on a source that answers nothing is relayed iff the key is missing or its coins cannot pay |
| Wallet.Wallet.Mint | src/wallet.rs:628-658 | a zero amount is refused iff given; what it relays publishes a mint to the wallet's own address, worth exactly the amount to replay unless the funding key is the vault's, made of the funding key's coins at the deployment's rate |
| Minting.MintGranted | src/indexer.rs:412-434 | replay grants such a carrier wherever it appears, for exactly the amount |
| Minting.MintIsRecorded | src/wallet.rs:454-587 | once its block is replayed, a wallet that scanned the state holds the minted note for exactly the amount |
| Minting.PaysOnce | src/wallet.rs:645-654 | of a mint's carrier only the first output pays the vault, unless change goes there too |
| Wallet.Wallet.Publish | src/wallet.rs:820-829 | what was relayed carries the transfer's bytes, is made of the funding key's coins at the rate, and is reported as out with its fee exactly when the server's reply arrived |
| Wallet.Wallet.Send | src/wallet.rs:810-836 | what it relays carries a transfer of the amount built from the wallet's notes, on the funding key's coins at the deployment's rate; of that transfer exactly the inputs are locked iff the server's reply arrived, on disk iff the save landed too, and otherwise nothing changes; every failure has its cause |
| Wallet.Wallet.SendUnanswered | src/wallet.rs:829-833 | with the reply dropped, a transfer that reached the network leaves its inputs free to be selected again |
| Wallet.Wallet.SendUnsaved | src/wallet.rs:829-834 | with a save that does not land, the process that starts next finds the inputs of a transfer that reached the network free |
| Wallet.SentIsAccepted | src/wallet.rs:810-836 | what a send relays on a reachable state, answered or not, moves the notes in any block of the window that has not seen its nullifiers |
| Payouts.ValidatePayout | src/wallet.rs:982-999 | valid iff the amount is at least dust and at most the burn and the script is one of the four standard forms; each reason iff its own condition |
| Payouts.BuildPayout | src/wallet.rs:942-971 | the fee is rate times the size of a carrier of the full amount over the vault's coins; the payout pays the amount less that fee, change back to the vault, and publishes the nullifier; on a source that answers it is made iff the vault can pay, and PayoutBelowFee is reported iff the fee plus dust exceeds the amount |
| Payouts.Cache.SpendsVault | src/wallet.rs:1003-1021 | true iff a non-coinbase transaction spends an output paying the vault |
| Payouts.PaidPayloads | src/wallet.rs:853-877 | exactly the payloads the vault's confirmed or own pending spends publish; always answered by a calm source whose transactions' inputs are known |
| Payouts.PendingIff | src/wallet.rs:853-877 | a payout pending in the mempool is recognised iff the wallet file lists its id |
| Wallet.PaidNeverAgain | src/wallet.rs:853-877 | once a payout has confirmed, or is pending and listed in the file, a later run makes no attempt for its nullifier |
| Wallet.Wallet.HandOver | src/wallet.rs:921-935 | the intent is on disk before the network sees the payout, and stays |
| Wallet.Wallet.PayOne | src/wallet.rs:880-935 | one request: paid at most once, for at most the burned value, at exactly its fee; what it leaves in the file in each case; with every query answered and every save landing a due request is attempted iff the vault's coins can pay |
| Wallet.Wallet.PayEvent | src/wallet.rs:880-935 | the same as a step of a run: every earlier fact of the run still holds after it |
| Wallet.Wallet.PayAll | src/wallet.rs:880-939 | over the whole log, stopping at a corrupt event or a failed save; the request asked for alone is reported missing iff no event holds it |
| Wallet.Wallet.ProcessPayouts | src/wallet.rs:842-940 | over any run at most one attempt per nullifier is ever made, each pays an accepted request less the fee and was not on the chain; on a calm source every due request the vault can pay is attempted, and what is returned is exactly the answered attempts with their values and fees |
| Treasury.PayoutsAreBacked | src/wallet.rs:842-940 | what attempts for different nullifiers pay is, with their fees, exactly what their requests asked, so at most the accepted mints, so at most what the vault was paid |
| Treasury.ClaimStays | src/wallet.rs:880-895 | the request an attempt answered stays in the log of every longer chain, so attempts of all runs may be added up |
| Treasury.BurnedNeverSpendable | src/wallet.rs:496-509 | an operator wallet tracking a log holds every note burned to it as spent, so never selects one |

## Findings

Where the code does not do what its documentation or a reader would expect, each with
the condition under which it does.

- A transfer that reached the network has its inputs locked in the running wallet iff
  the server's reply arrived, and in the file on disk iff the save after it also landed
  (src/wallet.rs:829-834, against "then locks its inputs" at 808-809): the lock is set
  only after the broadcast call returns. The conditions are in the contract of
  `Wallet.Wallet.Send`; `Wallet.Wallet.SendUnanswered`, `Wallet.Wallet.SendUnsaved` and
  `MockChain.RelayedUnanswered` show the lost reply and the lost save. The nullifiers
  still prevent a second spend.
- A payout request with an empty script is written but not read back
  (src/envelope.rs:124-131): a transfer round-trips iff it has no payout or a nonempty
  script (`WireLaws.EmptyScriptRefused`).
- A point has one accepted encoding iff its x is not 0 (js/shielded-verify.js:215-225):
  at x = 0 the sign bit is free (`PointCodec.Canonical`, `CurveCodec.IdentityTwice`). The
  envelope parser's final check is what keeps such strings out (`CurveCodec.TwinCaught`).
- A scan records all of the wallet's notes iff no two share a transaction id and an index
  (src/wallet.rs:574-587, `Completeness.ScanComplete`); of those that do, it keeps the
  first. One mint carrier replayed in two blocks is such a log
  (`Completeness.MintedTwice`); Bitcoin's distinct transaction ids exclude it
  (`Completeness.NothingMissed`).
- The address keys of a diversifier bind the viewing key iff the search for its base does
  not start low (src/keys.rs:145-178, `Binding.KeysDifferIff`): the base is the identity,
  which is not refused, exactly when the first candidate on the curve is on an axis or on
  the diagonal y^2 = a x^2 (`LowOrder.IdentityBaseIff`). Hash outputs 0, 1 and p - 1 are
  such starts (`LowOrder.LowOutputs`).
- A carrier is refused because its fee does not settle iff the fee rose on each of six
  passes (src/chain.rs:375-377, against "one more pass is enough in practice"): never
  with at most five outputs to spend (`Carrier.FewInputsSettle`), but with six it can
  happen to a carrier that a seventh pass would accept (`Carrier.SixCoinsUnsettled`).
- The lock of an unspent note lapses as soon as no later block can accept its anchor iff
  the scanned height is not the last of the anchor's window (src/wallet.rs:555-567,
  `Resume.LapsesOnTimeIff`): at that height it is kept one block longer, which is safe
  (`Resume.LapseIsSafe`). Anchored at 500 and scanned at 600 is such a lock
  (`Resume.LapsesLate`).
- A payout still pending in the mempool is recognised as paid iff the wallet file lists
  its id (src/wallet.rs:867-870, `Payouts.PendingIff`), so not from a file restored from
  before the payout was marked.

## Left out

- Groth16 set-up, proving and pairing, R1CS allocation and Poseidon's rounds: the
  verifier, the prover and the hash are function values. The relation is what the
  constraints say, not how the library lays them out.
- HKDF, SHA-256, ChaCha20-Poly1305, ECDSA: opaque functions. The signed size of a
  carrier is a function of its shape.
- The Electrum client, TCP, JSON, the command line, file locking, fsync,
  permissions and zeroising. A save is one atomic replacement that may fail, may
  report failure after replacing, or may be where the process dies.
- Seed derivation of keys, bech32-like address text, the browser's transaction
  parser and its Merkle-proof fetching.
- Agreement between the browser's and the indexer's carrier parsers, which treat
  truncated pushes differently.
- Reorganisations between two blocks of one sync call beyond the mock chain's one
  hook, and rescans where earlier events change while the cursor's txid does not:
  the code does not check these, so `Resume.Resumable` and `MockChain` exclude them.
- A bound of vault outflow by the requested amount: dropped dust change can raise
  the fee paid, as `Carrier.Balanced` states.
- Unlock: the source's other errors than an RPC refusal are one case, no answer.
- State files keep their sets and maps as such; the sorted lists of the JSON form
  are not modelled.
- The mock chain's hook is a list of mined and replaced blocks, not any closure,
  and every query may also go unanswered.
