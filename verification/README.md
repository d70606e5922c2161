# Supply-chain ledger: a Dafny model

This project models the ledger of a supply-chain tracker. The ledger is a proof-of-work, hash-chained list of blocks. Each block records one event about a catalogued product. The model covers the `Block` and `Blockchain` classes of `blockchain/core.py`, and the four ledger endpoints of `backend/routers/events.py`:
- recording an event;
- listing one product's history;
- reporting the chain with its validity;
- validating the chain.

The model has three modules, one file each:

- `pow.dfy`, module `ProofOfWork`. It holds the values a block's hash covers (`Value`, `Payload`, `HashInput`) and the `Digest` type: strings of 64 lowercase hex characters. A `Hasher` is any total function from `HashInput` to `Digest`. It stands for SHA-256 over `json.dumps(..., sort_keys=True)`, which the model treats as uninterpreted. The module also holds the difficulty test `hash[:d] == '0' * d`, under Python's slice rules for every integer `d`.
- `ledger.dfy`, module `Ledger`:
  - class `Block`: mutable fields; `mine_block` updates the nonce and hash in place;
  - class `Blockchain`: a `seq<Block>`, a constant hasher and a constant difficulty;
  - `BlockData`: a value snapshot of one block, which the router also hands out;
  - `ChainValid`: the value-level statement of what `is_chain_valid` answers.
- `events.dfy`, module `Events`. Each endpoint is a method that takes the chain as a parameter `bc`. The product catalog is a `set<int>` of existing product ids. The history loop and the info loop are `for` loops. Their invariants equal a prefix of `HistoryOf` and of `Views()`.

Where the design description of the system and the code disagree, the model follows the code:
- `is_chain_valid` returns only a boolean, not an offending index.
- It never checks index contiguity or the genesis block.
- It checks proof of work only when `difficulty > 0` and only for blocks whose own `index` field is positive.
- Mining has no attempt ceiling.
- Appending has no lock, optimistic retry or conflict error.
- The genesis block is made once, by the constructor.
- The record endpoint checks only that the product exists. It does not check `event_type` against a list of kinds.

## Model

| member | source | states |
|---|---|---|
| `ProofOfWork.MeetsTargetIsPySlice` | blockchain/core.py:30-31 | the difficulty test used by the model holds exactly when Python's `hash[:d]` equals `'0' * d`, for every integer `d` |
| `ProofOfWork.MeetsTargetMeaning` | blockchain/core.py:30-31 | for `d >= 0` the test holds iff the hash has at least `d` characters and the first `d` are all `'0'` |
| `ProofOfWork.DigestTargetReachable` | blockchain/core.py:30-31 | no 64-character digest meets a difficulty above 64 or between -63 and -1, so mining never returns there; every digest meets difficulty 0 and any difficulty at or below -64 |
| `Ledger.Block.CalculateHash` | blockchain/core.py:14-23 | the result is the hasher's digest of exactly index, timestamp, data, previous_hash and nonce; the stored hash is not an input |
| `Ledger.HashDeterminedByFields` | blockchain/core.py:14-23 | two blocks that agree on the five hashed fields get the same recomputed hash, whatever hashes they store |
| `Ledger.Block.constructor` | blockchain/core.py:6-12 | a new block holds the given fields, its nonce defaults to 0, and its stored hash equals the recomputed hash |
| `Ledger.Block.MineBlock` | blockchain/core.py:25-33 | afterwards the stored hash meets the difficulty and only nonce and hash have changed; if the stored hash already met it, nothing changes; otherwise the nonce is the first one above the start whose hash meets the target, every nonce skipped misses it, and an intact hash stays intact |
| `Ledger.GenesisData` | blockchain/core.py:43-45 | the genesis block has index 0, previous hash "0", data "Genesis Block - Supply Chain Start", nonce 0 and an intact, unmined hash |
| `Ledger.Blockchain.CreateGenesisBlock` | blockchain/core.py:43-45 | returns a fresh block whose fields are the genesis block at the given time |
| `Ledger.Blockchain.constructor` | blockchain/core.py:38-41 | a new chain holds exactly the genesis block, keeps the given difficulty (2 by default), and is valid and contiguous |
| `Ledger.Blockchain.GetLatestBlock` | blockchain/core.py:47-49 | returns the last block of the non-empty chain |
| `Ledger.Blockchain.AddBlock` | blockchain/core.py:51-66 | the chain grows by exactly the returned fresh block and earlier blocks are unchanged; the new block has index latest.index + 1, previous hash latest.hash, the given data and time, an intact hash, and the first nonce from 0 that meets the difficulty; a valid chain stays valid and a contiguous chain stays contiguous |
| `Ledger.Blockchain.Append` | blockchain/core.py:64 | appending a block extends the chain's views by that block's view; validity carries over when the block passes the three checks against the old tail |
| `Ledger.Blockchain.IsChainValid` | blockchain/core.py:68-90 | returns True iff every block at position 1..n-1 has an intact hash, links to its predecessor's hash, and passes the gated proof-of-work check |
| `Ledger.ChainValidAppend` | blockchain/core.py:68-90 | a chain with one more block is valid iff the shorter chain is valid and the new block passes the three checks against the old tail |
| `Ledger.TamperDetected` | blockchain/core.py:74-89 | any block at a position >= 1 with a stale hash, a broken link, or a positive index and a hash missing the zero prefix (when difficulty > 0) makes the chain invalid |
| `Ledger.RehashedTamperDetected` | blockchain/core.py:114-120 | in a valid chain, replacing any block but the last by one with a different stored hash makes the chain invalid, because the next block's link breaks |
| `Ledger.GenesisNotInspected` | blockchain/core.py:70-72 | replacing block 0 by any block with the same stored hash leaves the verdict unchanged |
| `Ledger.ContiguityNotChecked` | blockchain/core.py:68-90 | at a difficulty of 0 or below, a block with an intact hash that links to the genesis block is accepted whatever its index |
| `Ledger.ContiguousAppend` | blockchain/core.py:56-62 | appending a block whose index is the tail's index + 1 keeps index == position along the chain |
| `Events.EventPayload` | backend/routers/events.py:45-49 | the payload is a dictionary with exactly the six event keys; its timestamp is the supplied time's ISO text, or the current time's when none was supplied; it names the event's product and no other |
| `Events.RecordSupplyChainEvent` | backend/routers/events.py:26-66 | an unknown product gets 404 and the chain is untouched; otherwise the chain grows by exactly one block, which carries the event payload, links to the old tail and meets the difficulty; the reply carries its index, hash and data; validity is preserved |
| `Events.HistoryAfterRecord` | backend/routers/events.py:45-92 | after a recorded block is appended, its product's history gains that block (unless its index is 0) and every other product's history is unchanged |
| `Events.GetProductEventHistory` | backend/routers/events.py:69-98 | an unknown product gets 404; a known one gets Ok with exactly `HistoryOf` the chain, which may be empty and is never an error |
| `Events.HistoryOfSnoc` | backend/routers/events.py:79-92 | one more block extends the history by that block exactly when it is not index 0 and its data names the product |
| `Events.HistoryMembers` | backend/routers/events.py:79-92 | a block is in the history iff it is in the chain, its index is not 0, and its data is a dict whose `product_id` equals the product (Python equality) |
| `Events.HistorySkipsGenesis` | backend/routers/events.py:79-81 | no block in a history has index 0 |
| `Events.HistoryEmpty` | backend/routers/events.py:94-98 | the history is empty iff no block of the chain belongs in it |
| `Events.HistoryConcat` | backend/routers/events.py:78-92 | the history of two consecutive chain segments is the first segment's history followed by the second's, so the history keeps chain order |
| `Events.HistoryAscending` | backend/routers/events.py:78-92 | if the chain's indices increase, so do the history's |
| `Events.GetBlockchainInfo` | backend/routers/events.py:100-117 | the report has one view per block in chain order, chain_length equal to the chain's length, is_valid equal to the chain's validity, and the chain's difficulty |
| `Events.ValidateBlockchainIntegrity` | backend/routers/events.py:119-126 | returns the confirmation iff the chain is valid, and status 500 otherwise |

## Left out

- `Ledger.Block.MineBlock`: runs that never end are not modelled. A ghost `bound` nonce must meet the target, which is exactly the condition under which the Python loop returns. Partial correctness is proved; termination is proved only under that condition. `DigestTargetReachable` names the difficulties where no bound can exist.
- `Ledger.Blockchain.AddBlock` and `Events.RecordSupplyChainEvent` carry the same ghost `bound` for the same reason.
- SHA-256 and `json.dumps` are one uninterpreted `Hasher` parameter. The model assumes nothing about collisions, so tamper detection is stated through the recomputed hash, not through data equality.
- A serialisation failure in `json.dumps`, and the conversion of any exception in the record endpoint into status 500, are not modelled. The payloads the endpoint builds are always serialisable.
- `time.time()` and `datetime.utcnow().isoformat()` become parameters: `now: real` and `nowIso: string`. A supplied event timestamp is carried as its ISO text.
- `print` output is not modelled.
- Success status codes are not modelled, for example 201 for a recorded event.
- Pydantic coercion of response fields is not modelled.
- Payload values are null, booleans, integers and strings. Floats are left out, so Python's `1.0 == 1` in the history filter is not modelled. Nested values are left out too.
- The module-global chain and the lack of locking: the chain is a parameter, and concurrent requests are not modelled.
- The unused `pending_transactions` field is left out.
- Authentication is left out: the user dependency of the record endpoint.
- The product catalog is only its set of ids. Product CRUD, the ORM, the frontend, configuration and app wiring are not part of this model.
