/** The ledger endpoints of the events router: record an event for a catalogued
    product, list one product's history, report the chain with its validity,
    and validate the chain. The module-level chain is passed in as `bc`; the
    product catalog is the set of product ids it holds. */
module Events {
  import opened ProofOfWork
  import opened Ledger

  const NOT_FOUND: int := 404
  const INTEGRITY_FAILED: int := 500
  const RECORDED_MESSAGE: string := "Event recorded on the blockchain successfully."
  const VALID_MESSAGE: string := "Blockchain is valid."

  datatype Option<T> = None | Some(value: T)

  /** An endpoint's outcome: a response body, or an HTTP error status. */
  datatype Response<T> = Ok(body: T) | HttpError(status: int)

  /** `BlockchainEventCreate`; the optional `timestamp` is carried as the text
      its `isoformat()` produces. */
  datatype EventCreate = EventCreate(
    productId: int,
    eventType: string,
    location: Option<string>,
    actor: Option<string>,
    notes: Option<string>,
    timestamp: Option<string>)

  /** The body `record_supply_chain_event` returns. */
  datatype RecordReceipt = RecordReceipt(message: string, blockIndex: int, blockHash: string, eventData: Payload)

  /** `BlockchainInfo`. */
  datatype BlockchainInfo = BlockchainInfo(chain: seq<BlockData>, isValid: bool, difficulty: int, chainLength: int)

  /** Python's `v == n` for a payload value and an int: `None` and strings never
      equal an int, and `True`/`False` equal 1/0. */
  predicate EqualsInt(v: Value, n: int) {
    match v
    case Null => false
    case Bool(b) => (if b then 1 else 0) == n
    case Int(i) => i == n
    case Str(_) => false
  }

  /** `isinstance(block.data, dict) and block.data.get("product_id") == product_id`;
      a missing key reads as `None`. */
  predicate MatchesProduct(data: Payload, productId: int) {
    data.Dict? && "product_id" in data.entries && EqualsInt(data.entries["product_id"], productId)
  }

  /** A block belongs in a product's history: it is not the genesis block
      (index 0) and its payload names the product. */
  predicate InHistory(b: BlockData, productId: int) {
    b.index != 0 && MatchesProduct(b.data, productId)
  }

  /** The history the endpoint's loop collects: the blocks in chain order that
      belong in the product's history. */
  function HistoryOf(s: seq<BlockData>, productId: int): seq<BlockData> {
    if s == [] then []
    else HistoryOf(s[..|s| - 1], productId) + (if InHistory(s[|s| - 1], productId) then [s[|s| - 1]] else [])
  }

  /** The indices strictly increase along the sequence. */
  predicate Ascending(s: seq<BlockData>) {
    forall i, j :: 0 <= i < j < |s| ==> s[i].index < s[j].index
  }

  function OptionalText(o: Option<string>): Value {
    match o
    case None => Null
    case Some(s) => Str(s)
  }

  /** The payload `record_supply_chain_event` hands to `add_block`:
      `model_dump()` of the event, with `timestamp` replaced by the supplied
      time's ISO text or, when none was supplied, by `nowIso`. It names exactly
      one product, the event's. */
  function EventPayload(ev: EventCreate, nowIso: string): (p: Payload)
    ensures p.Dict?
    ensures p.entries.Keys == {"product_id", "event_type", "location", "actor", "notes", "timestamp"}
    ensures p.entries["timestamp"] == Str(if ev.timestamp.Some? then ev.timestamp.value else nowIso)
    ensures MatchesProduct(p, ev.productId)
    ensures forall q :: MatchesProduct(p, q) ==> q == ev.productId
  {
    var stamp := if ev.timestamp.Some? then ev.timestamp.value else nowIso;
    Dict(map[
      "product_id" := Int(ev.productId),
      "event_type" := Str(ev.eventType),
      "location" := OptionalText(ev.location),
      "actor" := OptionalText(ev.actor),
      "notes" := OptionalText(ev.notes),
      "timestamp" := Str(stamp)])
  }

  /** Appending one block extends the history by that block exactly when it
      belongs there. */
  lemma HistoryOfSnoc(s: seq<BlockData>, b: BlockData, productId: int)
    ensures HistoryOf(s + [b], productId) ==
      HistoryOf(s, productId) + (if InHistory(b, productId) then [b] else [])
  {
    assert (s + [b])[..|s|] == s;
  }

  /** The history holds exactly the blocks of the chain that are not the
      genesis block and whose payload names the product. */
  lemma {:induction false} HistoryMembers(s: seq<BlockData>, productId: int, x: BlockData)
    ensures x in HistoryOf(s, productId) <==> x in s && InHistory(x, productId)
  {
    if s != [] {
      var init := s[..|s| - 1];
      HistoryMembers(init, productId, x);
      assert s == init + [s[|s| - 1]];
    }
  }

  /** The genesis block (index 0) never appears in a history. */
  lemma HistorySkipsGenesis(s: seq<BlockData>, productId: int)
    ensures forall x :: x in HistoryOf(s, productId) ==> x.index != 0
  {
    forall x | x in HistoryOf(s, productId) ensures x.index != 0 {
      HistoryMembers(s, productId, x);
    }
  }

  /** A product with no matching block has the empty history, and only then. */
  lemma HistoryEmpty(s: seq<BlockData>, productId: int)
    ensures HistoryOf(s, productId) == [] <==> forall x :: x in s ==> !InHistory(x, productId)
  {
    if HistoryOf(s, productId) == [] {
      forall x | x in s ensures !InHistory(x, productId) {
        HistoryMembers(s, productId, x);
      }
    } else {
      var x := HistoryOf(s, productId)[0];
      HistoryMembers(s, productId, x);
    }
  }

  /** The history keeps chain order: the history of two chain segments is
      the history of the first followed by that of the second. */
  lemma {:induction false} HistoryConcat(s: seq<BlockData>, t: seq<BlockData>, productId: int)
    ensures HistoryOf(s + t, productId) == HistoryOf(s, productId) + HistoryOf(t, productId)
  {
    if t != [] {
      var init, last := t[..|t| - 1], t[|t| - 1];
      HistoryConcat(s, init, productId);
      assert s + t == (s + init) + [last];
      assert t == init + [last];
      HistoryOfSnoc(s + init, last, productId);
      HistoryOfSnoc(init, last, productId);
    } else {
      assert s + t == s;
    }
  }

  /** On a chain whose indices increase, the history's indices increase. */
  lemma {:induction false} HistoryAscending(s: seq<BlockData>, productId: int)
    requires Ascending(s)
    ensures Ascending(HistoryOf(s, productId))
  {
    if s != [] {
      var init, last := s[..|s| - 1], s[|s| - 1];
      assert Ascending(init);
      HistoryAscending(init, productId);
      var h := HistoryOf(init, productId);
      forall k | 0 <= k < |h| ensures h[k].index < last.index {
        HistoryMembers(init, productId, h[k]);
      }
    }
  }

  /** A chain whose indices equal their positions has increasing indices. */
  lemma ContiguousAscending(s: seq<BlockData>)
    requires Contiguous(s)
    ensures Ascending(s)
  {
  }

  /** After a recorded event is appended, the event's product's history gains
      the new block (unless its index is 0) and every other product's history
      is unchanged. */
  lemma HistoryAfterRecord(s: seq<BlockData>, v: BlockData, ev: EventCreate, nowIso: string, q: int)
    requires v.data == EventPayload(ev, nowIso)
    ensures HistoryOf(s + [v], q) ==
      HistoryOf(s, q) + (if q == ev.productId && v.index != 0 then [v] else [])
  {
    HistoryOfSnoc(s, v, q);
  }

  /** `record_supply_chain_event`: refuse an unknown product with 404 before
      the chain is touched; otherwise mine the event's payload into a new block
      and report its index, hash and data. The ghost `bound` is a nonce at which
      the new block meets the target, the condition under which mining returns. */
  method RecordSupplyChainEvent(bc: Blockchain, catalog: set<int>, ev: EventCreate, nowIso: string, now: real, ghost bound: nat)
    returns (r: Response<RecordReceipt>)
    requires bc.Valid()
    requires ev.productId in catalog ==>
      MeetsTarget(bc.digest(HashInput(bc.Latest().index + 1, now, EventPayload(ev, nowIso), bc.Latest().hash, bound)), bc.difficulty)
    modifies bc
    ensures bc.Valid()
    ensures ev.productId !in catalog ==> r == HttpError(NOT_FOUND) && unchanged(bc)
    ensures ev.productId in catalog ==>
      && |bc.chain| == old(|bc.chain|) + 1
      && var v := bc.Latest();
      && bc.Views() == old(bc.Views()) + [v]
      && r == Ok(RecordReceipt(RECORDED_MESSAGE, v.index, v.hash, v.data))
      && v.index == old(bc.Latest().index) + 1 && v.previousHash == old(bc.Latest().hash)
      && v.timestamp == now && v.data == EventPayload(ev, nowIso)
      && HashIntact(bc.digest, v) && MeetsTarget(v.hash, bc.difficulty)
    ensures old(ChainValid(bc.digest, bc.difficulty, bc.Views())) ==> ChainValid(bc.digest, bc.difficulty, bc.Views())
  {
    if ev.productId !in catalog {
      return HttpError(NOT_FOUND);
    }
    var payload := EventPayload(ev, nowIso);
    var block := bc.AddBlock(payload, now, bound);
    r := Ok(RecordReceipt(RECORDED_MESSAGE, block.index, block.hash, block.data));
  }

  /** `get_product_event_history`: 404 for a product not in the catalog,
      otherwise the product's history in chain order, possibly empty. */
  method GetProductEventHistory(bc: Blockchain, catalog: set<int>, productId: int)
    returns (r: Response<seq<BlockData>>)
    ensures productId !in catalog ==> r == HttpError(NOT_FOUND)
    ensures productId in catalog ==> r == Ok(HistoryOf(bc.Views(), productId))
  {
    if productId !in catalog {
      return HttpError(NOT_FOUND);
    }
    var productHistory: seq<BlockData> := [];
    for i := 0 to |bc.chain|
      invariant productHistory == HistoryOf(bc.Views()[..i], productId)
    {
      var block := bc.chain[i];
      assert bc.Views()[..i + 1] == bc.Views()[..i] + [block.View()];
      HistoryOfSnoc(bc.Views()[..i], block.View(), productId);
      if block.index == 0 {
        continue;
      }
      if MatchesProduct(block.data, productId) {
        productHistory := productHistory + [block.View()];
      }
    }
    assert bc.Views()[..|bc.chain|] == bc.Views();
    if productHistory == [] {
      return Ok([]);
    }
    return Ok(productHistory);
  }

  /** `get_blockchain_info`: one view per block in chain order, the verdict of
      `is_chain_valid`, the difficulty and the chain length. */
  method GetBlockchainInfo(bc: Blockchain) returns (info: BlockchainInfo)
    ensures info.chain == bc.Views() && info.chainLength == |info.chain|
    ensures info.isValid == ChainValid(bc.digest, bc.difficulty, bc.Views())
    ensures info.difficulty == bc.difficulty
  {
    var chainData: seq<BlockData> := [];
    for i := 0 to |bc.chain|
      invariant chainData == bc.Views()[..i]
    {
      chainData := chainData + [bc.chain[i].View()];
    }
    var valid := bc.IsChainValid();
    info := BlockchainInfo(chainData, valid, bc.difficulty, |bc.chain|);
  }

  /** `validate_blockchain_integrity`: a confirmation when the chain is valid,
      status 500 otherwise. */
  method ValidateBlockchainIntegrity(bc: Blockchain) returns (r: Response<string>)
    ensures r.Ok? <==> ChainValid(bc.digest, bc.difficulty, bc.Views())
    ensures r.Ok? ==> r.body == VALID_MESSAGE
    ensures !r.Ok? ==> r.status == INTEGRITY_FAILED
  {
    var isValid := bc.IsChainValid();
    if isValid {
      r := Ok(VALID_MESSAGE);
    } else {
      r := HttpError(INTEGRITY_FAILED);
    }
  }
}
