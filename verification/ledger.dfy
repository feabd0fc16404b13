/** What the Python and the Rust blockchain modules share: the block's fields, the
    genesis constants and the two lookups by hash and by author. */
module Ledger {
  import opened Outcomes
  import opened Text
  import opened ContentData

  /** Written as a concatenation so that the verifier does not evaluate byte counts of
      it character by character. */
  const GenesisData: string := "Genesis Block - " + "RootlessNet Protocol"
  const GenesisTitle := "Genesis"
  const GenesisDescription := "The beginning of the decentralized network"
  const GenesisAuthor := "SYSTEM"
  const DefaultDifficulty := 2

  /** The previous-hash of the first block: 64 zeros. */
  function ZeroHash(): (z: string)
    ensures |z| == 64 && forall i :: 0 <= i < 64 ==> z[i] == '0'
  {
    Repeat('0', 64)
  }

  /** The fields of a block, with its content's fields. */
  datatype BlockValue = BlockValue(
    index: int,
    timestamp: int,
    content: ContentRecord,
    author: string,
    previousHash: string,
    hash: string,
    nonce: int
  )

  /** The first position whose block has the given hash. */
  function FirstWithHash(chain: seq<BlockValue>, hash: string): (r: Option<nat>)
    ensures r.Some? ==> r.value < |chain| && chain[r.value].hash == hash
                        && forall k :: 0 <= k < r.value ==> chain[k].hash != hash
    ensures r.None? ==> forall k :: 0 <= k < |chain| ==> chain[k].hash != hash
  {
    if chain == [] then None
    else if chain[0].hash == hash then Some(0)
    else
      match FirstWithHash(chain[1..], hash)
      case None => None
      case Some(k) => Some(k + 1)
  }

  /** The blocks by one author, in chain order. */
  function ByAuthor(chain: seq<BlockValue>, author: string): (r: seq<BlockValue>)
    ensures forall v :: v in r <==> v in chain && v.author == author
    ensures |r| <= |chain|
  {
    if chain == [] then []
    else if chain[0].author == author then [chain[0]] + ByAuthor(chain[1..], author)
    else ByAuthor(chain[1..], author)
  }

  /** Filtering a chain extended by one block extends the filtered list by that block
      when it is by the author and by nothing otherwise: the order is the chain's. */
  lemma {:induction false} ByAuthorAppend(chain: seq<BlockValue>, v: BlockValue, author: string)
    ensures ByAuthor(chain + [v], author) == ByAuthor(chain, author) + (if v.author == author then [v] else [])
  {
    if chain != [] {
      assert (chain + [v])[1..] == chain[1..] + [v];
      ByAuthorAppend(chain[1..], v, author);
    }
  }

  /** A chain written by one author is its own filtered list. */
  lemma {:induction false} ByAuthorAll(chain: seq<BlockValue>, author: string)
    requires forall i :: 0 <= i < |chain| ==> chain[i].author == author
    ensures ByAuthor(chain, author) == chain
  {
    if chain != [] {
      ByAuthorAll(chain[1..], author);
    }
  }
}
