/** Values that feed a block's hash, the digest type, and the proof-of-work
    target test `hash[:difficulty] == '0' * difficulty` with Python's slice
    and string-repetition semantics written out. */
module ProofOfWork {

  /** A JSON scalar that can sit in an event payload. */
  datatype Value = Null | Bool(b: bool) | Int(i: int) | Str(s: string)

  /** A block's `data`: the genesis block carries a plain string, every
      recorded event a flat dictionary. */
  datatype Payload = Text(text: string) | Dict(entries: map<string, Value>)

  /** The five fields that `calculate_hash` serialises. Being a record rather
      than a string, its key order is canonical by construction, which is what
      `sort_keys=True` achieves in `calculate_hash`. */
  datatype HashInput = HashInput(index: int, timestamp: real, data: Payload, previousHash: string, nonce: int)

  const DIGEST_LENGTH: int := 64

  predicate IsLowerHex(c: char) {
    '0' <= c <= '9' || 'a' <= c <= 'f'
  }

  predicate IsHexDigest(s: string) {
    |s| == DIGEST_LENGTH && forall i :: 0 <= i < |s| ==> IsLowerHex(s[i])
  }

  /** What `hexdigest()` of SHA-256 returns: 64 lowercase hex characters. */
  type Digest = s: string | IsHexDigest(s) witness seq(64, _ => '0')

  /** SHA-256 over the canonical JSON of the five fields, left uninterpreted:
      any total, deterministic function onto digests. */
  type Hasher = HashInput -> Digest

  /** Python's `'0' * d`: the empty string when `d <= 0`. */
  function Zeros(d: int): (z: string)
    ensures |z| == if d <= 0 then 0 else d
    ensures forall i :: 0 <= i < |z| ==> z[i] == '0'
  {
    if d <= 0 then "" else Zeros(d - 1) + "0"
  }

  /** Python's `s[:d]`: a negative `d` counts from the end, and the slice is
      clamped to the string. */
  function PyPrefix(s: string, d: int): (p: string)
    ensures p <= s
    ensures |p| == if 0 <= d then (if d <= |s| then d else |s|)
                   else (if |s| + d <= 0 then 0 else |s| + d)
  {
    if 0 <= d then s[..if d <= |s| then d else |s|]
    else s[..if |s| + d <= 0 then 0 else |s| + d]
  }

  /** How many '0' characters the string starts with. */
  function LeadingZeros(s: string): (n: nat)
    ensures n <= |s|
  {
    if s == [] || s[0] != '0' then 0 else 1 + LeadingZeros(s[1..])
  }

  /** The loop guard of `mine_block` and the check in `is_chain_valid`,
      `hash[:difficulty] == '0' * difficulty`, stated by counting: a
      non-negative difficulty asks for that many leading zeros, a negative one
      holds only of strings no longer than `-difficulty` (the slice and the
      target are then both empty). MeetsTargetIsPySlice proves the two
      readings agree. */
  predicate MeetsTarget(hash: string, difficulty: int) {
    if 0 <= difficulty then difficulty <= LeadingZeros(hash) else |hash| <= -difficulty
  }

  /** The first LeadingZeros(s) characters are '0' and the next one is not. */
  lemma {:induction false} LeadingZerosMeaning(s: string)
    ensures forall i :: 0 <= i < LeadingZeros(s) ==> s[i] == '0'
    ensures LeadingZeros(s) < |s| ==> s[LeadingZeros(s)] != '0'
  {
    if s != [] && s[0] == '0' {
      LeadingZerosMeaning(s[1..]);
      forall i | 0 <= i < LeadingZeros(s) ensures s[i] == '0' {
        if i > 0 {
          assert s[i] == s[1..][i - 1];
        }
      }
    }
  }

  /** For a non-negative difficulty the target means "at least `difficulty`
      leading zeros". */
  lemma MeetsTargetMeaning(hash: string, d: int)
    requires 0 <= d
    ensures MeetsTarget(hash, d) <==> d <= |hash| && forall i :: 0 <= i < d ==> hash[i] == '0'
  {
    LeadingZerosMeaning(hash);
  }

  /** The counting reading of the target is exactly the comparison of
      Python's slice `hash[:d]` with `'0' * d`. */
  lemma MeetsTargetIsPySlice(hash: string, d: int)
    ensures MeetsTarget(hash, d) <==> PyPrefix(hash, d) == Zeros(d)
  {
    if 0 <= d {
      MeetsTargetMeaning(hash, d);
      if d <= |hash| && forall i :: 0 <= i < d ==> hash[i] == '0' {
        assert PyPrefix(hash, d) == Zeros(d);
      }
      if PyPrefix(hash, d) == Zeros(d) {
        forall i | 0 <= i < d ensures hash[i] == '0' {
          assert PyPrefix(hash, d)[i] == Zeros(d)[i];
        }
      }
    }
  }

  /** Which difficulties a digest can ever meet: none above 64 (the slice is at
      most 64 characters) and none in -63..-1 (the slice is non-empty while the
      target is empty). Difficulty 0, and any difficulty at or below -64, is met
      by every digest. */
  lemma DigestTargetReachable(hash: Digest, d: int)
    ensures d > DIGEST_LENGTH ==> !MeetsTarget(hash, d)
    ensures -DIGEST_LENGTH < d < 0 ==> !MeetsTarget(hash, d)
    ensures d == 0 || d <= -DIGEST_LENGTH ==> MeetsTarget(hash, d)
  {
  }
}
