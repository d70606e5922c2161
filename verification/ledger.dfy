/** The hash-chained ledger: blocks that hash their own fields and search for a
    proof-of-work nonce, and a chain that links and validates them. */
module Ledger {
  import opened ProofOfWork

  const GENESIS_DATA: string := "Genesis Block - Supply Chain Start"
  const GENESIS_PREVIOUS_HASH: string := "0"
  const DEFAULT_DIFFICULTY: int := 2

  /** A snapshot of a block's six fields, as the router hands it out. */
  datatype BlockData = BlockData(index: int, timestamp: real, data: Payload, previousHash: string, hash: string, nonce: int)

  /** The five fields the hash covers; the stored hash is not one of them. */
  function HashedFields(b: BlockData): HashInput {
    HashInput(b.index, b.timestamp, b.data, b.previousHash, b.nonce)
  }

  /** The stored hash equals the recomputed one. */
  predicate HashIntact(h: Hasher, b: BlockData) {
    b.hash == h(HashedFields(b))
  }

  /** The block points at its predecessor's stored hash. */
  predicate Linked(prev: BlockData, cur: BlockData) {
    cur.previousHash == prev.hash
  }

  /** The proof-of-work check of `is_chain_valid`, including its gate: only a
      positive difficulty is checked, and only on a block whose own `index`
      field is positive. */
  predicate WorkAccepted(d: int, b: BlockData) {
    !(d > 0 && !MeetsTarget(b.hash, d) && b.index > 0)
  }

  /** The three checks `is_chain_valid` makes of the block at a position >= 1. */
  predicate BlockAccepted(h: Hasher, d: int, prev: BlockData, cur: BlockData) {
    HashIntact(h, cur) && Linked(prev, cur) && WorkAccepted(d, cur)
  }

  /** What `is_chain_valid` answers: every block after the first passes the
      three checks against its predecessor. Block 0 is never inspected and
      index contiguity is never checked. */
  predicate ChainValid(h: Hasher, d: int, s: seq<BlockData>) {
    forall i :: 1 <= i < |s| ==> BlockAccepted(h, d, s[i - 1], s[i])
  }

  /** The `index` field of every block equals its position. */
  predicate Contiguous(s: seq<BlockData>) {
    forall i :: 0 <= i < |s| ==> s[i].index == i
  }

  /** The genesis block as `create_genesis_block` builds it at time `now`. */
  function GenesisData(h: Hasher, now: real): (g: BlockData)
    ensures g.index == 0 && g.previousHash == GENESIS_PREVIOUS_HASH && g.nonce == 0
    ensures g.data == Text(GENESIS_DATA) && g.timestamp == now
    ensures HashIntact(h, g)
  {
    var fields := HashInput(0, now, Text(GENESIS_DATA), GENESIS_PREVIOUS_HASH, 0);
    BlockData(0, now, Text(GENESIS_DATA), GENESIS_PREVIOUS_HASH, h(fields), 0)
  }

  /** `calculate_hash` sees exactly the five hashed fields: two blocks that agree
      on them recompute the same hash whatever they store, and two intact
      blocks that agree on them store the same hash. */
  lemma HashDeterminedByFields(h: Hasher, a: BlockData, b: BlockData)
    requires HashedFields(a) == HashedFields(b)
    ensures h(HashedFields(a)) == h(HashedFields(b))
    ensures HashIntact(h, a) && HashIntact(h, b) ==> a.hash == b.hash
    ensures HashIntact(h, a) ==> HashIntact(h, b.(hash := a.hash))
  {
  }

  /** Validity of an extended chain decomposes into validity of the old chain
      and the checks on the new last block, in both directions. */
  lemma {:induction false} ChainValidAppend(h: Hasher, d: int, s: seq<BlockData>, b: BlockData)
    ensures ChainValid(h, d, s + [b]) <==>
      ChainValid(h, d, s) && (|s| > 0 ==> BlockAccepted(h, d, s[|s| - 1], b))
  {
    var t := s + [b];
    if ChainValid(h, d, t) {
      forall i | 1 <= i < |s| ensures BlockAccepted(h, d, s[i - 1], s[i]) {
        assert t[i - 1] == s[i - 1] && t[i] == s[i];
      }
      if |s| > 0 {
        assert t[|s| - 1] == s[|s| - 1] && t[|s|] == b;
      }
    }
    if ChainValid(h, d, s) && (|s| > 0 ==> BlockAccepted(h, d, s[|s| - 1], b)) {
      forall i | 1 <= i < |t| ensures BlockAccepted(h, d, t[i - 1], t[i]) {
        if i < |s| {
          assert t[i - 1] == s[i - 1] && t[i] == s[i];
        } else {
          assert t[i - 1] == s[|s| - 1] && t[i] == b;
        }
      }
    }
  }

  lemma ContiguousAppend(s: seq<BlockData>, b: BlockData)
    requires |s| > 0
    ensures Contiguous(s) && b.index == s[|s| - 1].index + 1 ==> Contiguous(s + [b])
  {
  }

  /** `is_chain_valid` answers False as soon as one block at a position >= 1
      has a stale hash (for example its data was edited without rehashing), a
      broken link, or, when the difficulty is positive and its index field is
      positive, a hash without the zero prefix. */
  lemma TamperDetected(h: Hasher, d: int, s: seq<BlockData>, i: int)
    requires 1 <= i < |s|
    ensures !HashIntact(h, s[i]) ==> !ChainValid(h, d, s)
    ensures !Linked(s[i - 1], s[i]) ==> !ChainValid(h, d, s)
    ensures d > 0 && s[i].index > 0 && !MeetsTarget(s[i].hash, d) ==> !ChainValid(h, d, s)
  {
    if ChainValid(h, d, s) {
      assert BlockAccepted(h, d, s[i - 1], s[i]);
    }
  }

  /** Rehashing a tampered block does not hide it unless it is the last one:
      a valid chain in which any block other than the last is replaced by one
      with a different stored hash is invalid, because the next block's link
      no longer matches. */
  lemma RehashedTamperDetected(h: Hasher, d: int, s: seq<BlockData>, i: int, t: BlockData)
    requires ChainValid(h, d, s)
    requires 0 <= i < |s| - 1 && t.hash != s[i].hash
    ensures !ChainValid(h, d, s[i := t])
  {
    var u := s[i := t];
    assert u[i + 1] == s[i + 1] && u[i] == t;
    assert BlockAccepted(h, d, s[i], s[i + 1]);
    assert !Linked(u[i], u[i + 1]);
  }

  /** Block 0 is never inspected: replacing it by any block with the same
      stored hash does not change the verdict. */
  lemma GenesisNotInspected(h: Hasher, d: int, s: seq<BlockData>, g: BlockData)
    requires |s| > 0 && g.hash == s[0].hash
    ensures ChainValid(h, d, s[0 := g]) <==> ChainValid(h, d, s)
  {
    var t := s[0 := g];
    forall i | 1 <= i < |s|
      ensures BlockAccepted(h, d, t[i - 1], t[i]) <==> BlockAccepted(h, d, s[i - 1], s[i])
    {
      assert t[i] == s[i];
      assert t[i - 1].hash == s[i - 1].hash;
    }
  }

  /** Index contiguity is not part of validity: a block linked to the genesis
      block and intact, but with any index at all, is accepted when the
      difficulty is not positive. */
  lemma ContiguityNotChecked(h: Hasher, d: int, now: real, index: int, data: Payload)
    requires d <= 0
    ensures
      var g := GenesisData(h, now);
      var fields := HashInput(index, now, data, g.hash, 0);
      ChainValid(h, d, [g, BlockData(index, now, data, g.hash, h(fields), 0)])
  {
  }

  /** A mutable block: `mine_block` changes its nonce and hash in place. */
  class Block {
    var index: int
    var timestamp: real
    var data: Payload
    var previousHash: string
    var nonce: int
    var hash: string

    /** The six fields as a value. */
    function View(): BlockData
      reads this
    {
      BlockData(index, timestamp, data, previousHash, hash, nonce)
    }

    /** The hash input this block would have with nonce `n`. */
    function AtNonce(n: int): HashInput
      reads this`index, this`timestamp, this`data, this`previousHash
    {
      HashInput(index, timestamp, data, previousHash, n)
    }

    /** `calculate_hash`: the digest of the five fields as they are now. */
    function CalculateHash(h: Hasher): (r: Digest)
      reads this
      ensures r == h(HashedFields(View()))
    {
      h(AtNonce(nonce))
    }

    constructor (h: Hasher, index: int, timestamp: real, data: Payload, previousHash: string, nonce: int := 0)
      ensures this.index == index && this.timestamp == timestamp && this.data == data
      ensures this.previousHash == previousHash && this.nonce == nonce
      ensures HashIntact(h, View())
    {
      this.index := index;
      this.timestamp := timestamp;
      this.data := data;
      this.previousHash := previousHash;
      this.nonce := nonce;
      new;
      hash := CalculateHash(h);
    }

    /** `mine_block`: while the STORED hash misses the target, count the nonce
        up by one and rehash. The loop need not terminate; the ghost `bound` is
        a nonce above the current one that meets the target, which is exactly
        when the loop returns. The result is the first such nonce. */
    method MineBlock(h: Hasher, difficulty: int, ghost bound: int)
      requires MeetsTarget(hash, difficulty) || (nonce < bound && MeetsTarget(h(AtNonce(bound)), difficulty))
      modifies this`nonce, this`hash
      ensures MeetsTarget(hash, difficulty)
      ensures old(MeetsTarget(hash, difficulty)) ==> nonce == old(nonce) && hash == old(hash)
      ensures !old(MeetsTarget(hash, difficulty)) ==>
        old(nonce) < nonce <= bound && hash == h(AtNonce(nonce)) &&
        forall n :: old(nonce) < n < nonce ==> !MeetsTarget(h(AtNonce(n)), difficulty)
      ensures old(HashIntact(h, View())) ==>
        HashIntact(h, View()) && forall n :: old(nonce) <= n < nonce ==> !MeetsTarget(h(AtNonce(n)), difficulty)
    {
      while !MeetsTarget(hash, difficulty)
        invariant old(nonce) <= nonce
        invariant nonce == old(nonce) ==> hash == old(hash)
        invariant nonce > old(nonce) ==> nonce <= bound && hash == h(AtNonce(nonce)) && !old(MeetsTarget(hash, difficulty))
        invariant MeetsTarget(hash, difficulty) || nonce < bound
        invariant forall n :: old(nonce) < n < nonce ==> !MeetsTarget(h(AtNonce(n)), difficulty)
        decreases bound - nonce
      {
        nonce := nonce + 1;
        hash := CalculateHash(h);
      }
    }
  }

  /** The ledger: an append-only list of blocks that starts with an unmined
      genesis block, and the difficulty new blocks are mined at. */
  class Blockchain {
    /** Stands for SHA-256 over `json.dumps(..., sort_keys=True)`. */
    const digest: Hasher
    const difficulty: int
    var chain: seq<Block>

    /** The chain is never empty: the constructor puts the genesis block in and
        nothing removes blocks. */
    ghost predicate Valid()
      reads this
    {
      |chain| >= 1
    }

    /** The chain as values, in order. */
    function Views(): (v: seq<BlockData>)
      reads this, chain
      ensures |v| == |chain|
      ensures forall i :: 0 <= i < |chain| ==> v[i] == chain[i].View()
    {
      seq(|chain|, i requires 0 <= i < |chain| reads this, chain => chain[i].View())
    }

    /** `get_latest_block` as a value. */
    function Latest(): BlockData
      requires Valid()
      reads this, chain
    {
      chain[|chain| - 1].View()
    }

    static method CreateGenesisBlock(h: Hasher, now: real) returns (g: Block)
      ensures fresh(g) && g.View() == GenesisData(h, now)
    {
      g := new Block(h, 0, now, Text(GENESIS_DATA), GENESIS_PREVIOUS_HASH);
    }

    constructor (digest: Hasher, now: real, difficulty: int := DEFAULT_DIFFICULTY)
      ensures Valid() && fresh(chain[0])
      ensures this.digest == digest && this.difficulty == difficulty
      ensures Views() == [GenesisData(digest, now)]
      ensures ChainValid(digest, difficulty, Views()) && Contiguous(Views())
    {
      this.digest := digest;
      this.difficulty := difficulty;
      var g := CreateGenesisBlock(digest, now);
      chain := [g];
    }

    /** `get_latest_block`: the last element of the chain. */
    method GetLatestBlock() returns (b: Block)
      requires Valid()
      ensures b == chain[|chain| - 1] && b.View() == Latest()
    {
      b := chain[|chain| - 1];
    }

    /** `add_block`: build a block after the tail, mine it and append it. The
        ghost `bound` is a nonce at which the new block meets the target, the
        condition under which mining returns. */
    method AddBlock(newData: Payload, now: real, ghost bound: nat) returns (b: Block)
      requires Valid()
      requires MeetsTarget(digest(HashInput(Latest().index + 1, now, newData, Latest().hash, bound)), difficulty)
      modifies this
      ensures Valid() && fresh(b)
      ensures chain == old(chain) + [b]
      ensures Views() == old(Views()) + [b.View()]
      ensures b.index == old(Latest().index) + 1 && b.timestamp == now && b.data == newData
      ensures b.previousHash == old(Latest().hash)
      ensures HashIntact(digest, b.View()) && MeetsTarget(b.hash, difficulty)
      ensures 0 <= b.nonce <= bound
      ensures forall n :: 0 <= n < b.nonce ==> !MeetsTarget(digest(b.AtNonce(n)), difficulty)
      ensures old(ChainValid(digest, difficulty, Views())) ==> ChainValid(digest, difficulty, Views())
      ensures old(Contiguous(Views())) ==> Contiguous(Views())
    {
      ghost var before, prev := Views(), Latest();
      var latest := GetLatestBlock();
      b := new Block(digest, latest.index + 1, now, newData, latest.hash);
      b.MineBlock(digest, difficulty, bound);
      ghost var mined := b.View();
      assert unchanged(this) && unchanged(chain);
      assert Views() == before && Latest() == prev;
      assert mined.index == prev.index + 1 && mined.previousHash == prev.hash;
      assert WorkAccepted(difficulty, mined);
      Append(b);
      assert b.View() == mined;
    }

    /** `self.chain.append(block)`: the old blocks are untouched and validity
        and contiguity carry over when the block fits after the tail. */
    method Append(b: Block)
      requires Valid()
      modifies this
      ensures Valid() && chain == old(chain) + [b]
      ensures Views() == old(Views()) + [b.View()]
      ensures old(ChainValid(digest, difficulty, Views()) && BlockAccepted(digest, difficulty, Latest(), b.View())) ==>
        ChainValid(digest, difficulty, Views())
      ensures old(Contiguous(Views())) && b.index == old(Latest().index) + 1 ==> Contiguous(Views())
    {
      ghost var before := Views();
      chain := chain + [b];
      assert forall i :: 0 <= i < |old(chain)| ==> chain[i] == old(chain[i]);
      assert Views() == before + [b.View()];
      ChainValidAppend(digest, difficulty, before, b.View());
      ContiguousAppend(before, b.View());
    }

    /** `is_chain_valid`: scan positions 1 .. n-1, returning False at the first
        block that fails a check. */
    method IsChainValid() returns (valid: bool)
      ensures valid == ChainValid(digest, difficulty, Views())
    {
      var i := 1;
      while i < |chain|
        invariant 1 <= i
        invariant forall j :: 1 <= j < i && j < |chain| ==> BlockAccepted(digest, difficulty, chain[j - 1].View(), chain[j].View())
      {
        var current := chain[i];
        var previous := chain[i - 1];
        if current.hash != current.CalculateHash(digest) {
          return false;
        }
        if current.previousHash != previous.hash {
          return false;
        }
        if difficulty > 0 && !MeetsTarget(current.hash, difficulty) {
          if current.index > 0 {
            return false;
          }
        }
        i := i + 1;
      }
      return true;
    }
  }
}
