/** The blockchain module of the Rust protocol crate. A block is a plain value that owns
    its content; `mine` changes a block's nonce and hash in place, and the chain is a
    vector of blocks that `add_block` pushes onto. */
module RsLedger {
  import opened Outcomes
  import opened Text
  import opened Crypto
  import opened ContentData
  import opened Mining
  import opened Seqs
  import opened Ledger
  import RsContent

  /** The text `calculate_hash` hashes: the decimal index and timestamp, the compact serde
      text of the content, the author, the previous hash and the decimal nonce. */
  function HashInput(s: Suite, b: BlockValue): string
  {
    IntToString(b.index) + IntToString(b.timestamp) + s.jsonDump(RsContent.ToJson(b.content))
    + b.author + b.previousHash + IntToString(b.nonce)
  }

  function CalculateHash(s: Suite, b: BlockValue): string
  {
    s.hex(s.sha256(s.utf8(HashInput(s, b))))
  }

  /** A block hash is 64 hex digits and does not depend on the stored hash. */
  lemma CalculateHashShape(s: Suite, b: BlockValue, stored: string)
    requires HashLaws(s) && HexLaws(s)
    ensures |CalculateHash(s, b)| == 64
    ensures forall i :: 0 <= i < 64 ==> IsHexDigit(CalculateHash(s, b)[i])
    ensures CalculateHash(s, b.(hash := stored)) == CalculateHash(s, b)
  {
    assert |s.sha256(s.utf8(HashInput(s, b)))| == 32;
  }

  /** The block's hash as a function of its nonce, everything else held fixed. */
  function NonceHash(s: Suite, b: BlockValue): int -> string
  {
    (n: int) => CalculateHash(s, b.(nonce := n))
  }

  /** `Block::new`: nonce 0 and the hash computed for it; `now` is the clock reading. */
  function NewBlock(s: Suite, index: int, content: ContentRecord, author: string,
                    previousHash: string, now: int): (b: BlockValue)
    ensures b.nonce == 0 && b.hash == CalculateHash(s, b)
    ensures b.index == index && b.timestamp == now && b.content == content
    ensures b.author == author && b.previousHash == previousHash
  {
    var b := BlockValue(index, now, content, author, previousHash, "", 0);
    b.(hash := CalculateHash(s, b))
  }

  /** What `mine` leaves in a block: nothing changes if the stored hash already has the
      prefix, otherwise the nonce moves to where the loop stops and the hash is the one
      computed for it. */
  function Mined(s: Suite, b: BlockValue, difficulty: nat): (m: BlockValue)
    ensures m == b || (m.nonce > b.nonce && m.hash == CalculateHash(s, m))
    ensures Meets(m.hash, difficulty) || m.nonce > MaxNonce
    ensures m.nonce <= (if b.nonce < MaxNonce then MaxNonce + 1 else b.nonce + 1)
    ensures m == b.(nonce := m.nonce, hash := m.hash)
    ensures difficulty == 0 ==> m == b
  {
    if Meets(b.hash, difficulty) then b
    else
      var n := StopNonce(NonceHash(s, b), difficulty, b.nonce);
      assert NonceHash(s, b)(n) == CalculateHash(s, b.(nonce := n));
      b.(nonce := n, hash := CalculateHash(s, b.(nonce := n)))
  }

  /** Mining stops at the first nonce that works: every nonce it skipped fails. */
  lemma MinedIsFirst(s: Suite, b: BlockValue, difficulty: nat)
    ensures var m := Mined(s, b, difficulty);
            forall k :: b.nonce < k < m.nonce ==> !Meets(CalculateHash(s, b.(nonce := k)), difficulty)
  {
    if !Meets(b.hash, difficulty) {
      var n := StopNonce(NonceHash(s, b), difficulty, b.nonce);
      StopNonceIsFirst(NonceHash(s, b), difficulty, b.nonce);
      forall k | b.nonce < k < n ensures !Meets(CalculateHash(s, b.(nonce := k)), difficulty) {
        assert NonceHash(s, b)(k) == CalculateHash(s, b.(nonce := k));
      }
    }
  }

  /** `mine`: raises the nonce and rehashes until the hash has `difficulty` leading zeros
      or the nonce passes one million, and reports success either way. */
  method Mine(s: Suite, b: BlockValue, difficulty: nat) returns (m: BlockValue, r: Result<(), string>)
    ensures m == Mined(s, b, difficulty) && r == Ok(())
  {
    var prefix := Repeat('0', difficulty);
    ghost var h := NonceHash(s, b);
    ghost var stop := if Meets(b.hash, difficulty) then b.nonce else StopNonce(h, difficulty, b.nonce);
    m := b;
    while !StartsWith(m.hash, prefix)
      invariant m == b.(nonce := m.nonce, hash := m.hash)
      invariant b.nonce <= m.nonce && (m.nonce == b.nonce ==> m.hash == b.hash) && (m.nonce != b.nonce ==> m.hash == h(m.nonce))
      invariant Meets(m.hash, difficulty) ==> stop == m.nonce
      invariant !Meets(m.hash, difficulty) ==> stop == StopNonce(h, difficulty, m.nonce) && (m.nonce != b.nonce ==> m.nonce <= MaxNonce)
      decreases MaxNonce + 1 - m.nonce
    {
      m := m.(nonce := m.nonce + 1);
      m := m.(hash := CalculateHash(s, m));
      assert m.(hash := b.hash) == b.(nonce := m.nonce);
      if m.nonce > MaxNonce {
        break;
      }
    }
    assert m.nonce == stop;
    r := Ok(());
  }

  /** The block `add_block` pushes after `last`, mined at the chain's difficulty. */
  function Appended(s: Suite, last: BlockValue, content: ContentRecord, author: string,
                    now: int, difficulty: nat): (b: BlockValue)
    ensures b.index == last.index + 1 && b.previousHash == last.hash
    ensures b.hash == CalculateHash(s, b)
    ensures b.content == content && b.author == author && b.timestamp == now
  {
    Mined(s, NewBlock(s, last.index + 1, content, author, last.hash, now), difficulty)
  }

  /** `is_valid` on the vector: every block after the first carries its own correct hash
      and the hash of the block before it. */
  predicate ChainValid(s: Suite, chain: seq<BlockValue>) {
    forall i :: 1 <= i < |chain| ==>
      chain[i].hash == CalculateHash(s, chain[i]) && chain[i].previousHash == chain[i - 1].hash
  }

  /** A block with a correct hash that links to the last block extends a valid chain. */
  lemma LinkedAppendValid(s: Suite, chain: seq<BlockValue>, b: BlockValue)
    requires ChainValid(s, chain) && b.hash == CalculateHash(s, b)
    requires chain != [] ==> b.previousHash == chain[|chain| - 1].hash
    ensures ChainValid(s, chain + [b])
  {
    var c := chain + [b];
    forall i | 1 <= i < |c| ensures c[i].hash == CalculateHash(s, c[i]) && c[i].previousHash == c[i - 1].hash {
      if i < |chain| {
        assert c[i] == chain[i] && c[i - 1] == chain[i - 1];
      } else {
        assert c[i] == b && c[i - 1] == chain[|chain| - 1];
      }
    }
  }

  /** Pushing the block `add_block` builds keeps a valid chain valid. */
  lemma AppendKeepsValid(s: Suite, chain: seq<BlockValue>, content: ContentRecord, author: string,
                         now: int, difficulty: nat)
    requires ChainValid(s, chain) && chain != []
    ensures ChainValid(s, chain + [Appended(s, chain[|chain| - 1], content, author, now, difficulty)])
  {
    LinkedAppendValid(s, chain, Appended(s, chain[|chain| - 1], content, author, now, difficulty));
  }

  lemma ValidPrefixStep(s: Suite, chain: seq<BlockValue>, i: nat)
    requires 1 <= i < |chain| && ChainValid(s, chain[..i])
    requires chain[i].hash == CalculateHash(s, chain[i]) && chain[i].previousHash == chain[i - 1].hash
    ensures ChainValid(s, chain[..i + 1])
  {
    TakeNext(chain, i);
    LinkedAppendValid(s, chain[..i], chain[i]);
  }

  /** Overwriting the stored hash of a later block with any other value is detected. */
  lemma StoredHashReplacedDetected(s: Suite, chain: seq<BlockValue>, i: nat, h: string)
    requires ChainValid(s, chain) && 1 <= i < |chain| && h != chain[i].hash
    ensures !ChainValid(s, chain[i := chain[i].(hash := h)])
  {
    var t := chain[i := chain[i].(hash := h)];
    assert HashInput(s, t[i]) == HashInput(s, chain[i]);
    assert t[i].hash != CalculateHash(s, t[i]);
  }

  /** One `add_block` call: the content and author passed and the clock reading. */
  datatype Submission = Submission(content: ContentRecord, author: string, now: int)

  /** The chain after `add_block` is called for each submission in turn. */
  function AddAll(s: Suite, chain: seq<BlockValue>, items: seq<Submission>, difficulty: nat): (c: seq<BlockValue>)
    requires chain != []
    decreases |items|
    ensures |c| == |chain| + |items| && c[..|chain|] == chain
  {
    if items == [] then chain
    else
      var next := Appended(s, chain[|chain| - 1], items[0].content, items[0].author, items[0].now, difficulty);
      var c := AddAll(s, chain + [next], items[1..], difficulty);
      assert c[..|chain| + 1] == chain + [next];
      assert c[..|chain|] == (chain + [next])[..|chain|];
      c
  }

  /** Any number of `add_block` calls keep a valid chain valid and add one block each. */
  lemma {:induction false} AddAllValid(s: Suite, chain: seq<BlockValue>, items: seq<Submission>, difficulty: nat)
    requires chain != [] && ChainValid(s, chain)
    decreases |items|
    ensures ChainValid(s, AddAll(s, chain, items, difficulty))
  {
    if items != [] {
      AppendKeepsValid(s, chain, items[0].content, items[0].author, items[0].now, difficulty);
      AddAllValid(s, chain + [Appended(s, chain[|chain| - 1], items[0].content, items[0].author, items[0].now, difficulty)],
                  items[1..], difficulty);
    }
  }

  /** The genesis block `Blockchain::new` builds from the two clock readings. */
  function Genesis(s: Suite, contentTime: int, blockTime: int): (b: BlockValue)
    ensures b.index == 0 && b.nonce == 0 && b.previousHash == ZeroHash() && b.author == GenesisAuthor
    ensures b.hash == CalculateHash(s, b) && b.content.data == GenesisData
  {
    NewBlock(s, 0, RsContent.NewRecord(s, Text, GenesisData, GenesisTitle, GenesisDescription, None, None, None, contentTime),
             GenesisAuthor, ZeroHash(), blockTime)
  }

  /** A new chain, extended by one and by five submissions, has two and six blocks and is
      valid each time. */
  lemma NewChainGrowsValid(s: Suite, contentTime: int, blockTime: int, one: seq<Submission>, five: seq<Submission>)
    requires |one| == 1 && |five| == 5
    ensures var c := AddAll(s, [Genesis(s, contentTime, blockTime)], one, DefaultDifficulty);
            |c| == 2 && ChainValid(s, c)
    ensures var c := AddAll(s, [Genesis(s, contentTime, blockTime)], five, DefaultDifficulty);
            |c| == 6 && ChainValid(s, c)
  {
    AddAllValid(s, [Genesis(s, contentTime, blockTime)], one, DefaultDifficulty);
    AddAllValid(s, [Genesis(s, contentTime, blockTime)], five, DefaultDifficulty);
  }

  /** The chain and its difficulty. */
  class Blockchain {
    var chain: seq<BlockValue>
    var difficulty: nat

    /** `Blockchain::new`: one genesis block and difficulty 2. */
    constructor (s: Suite, contentTime: int, blockTime: int)
      ensures chain == [Genesis(s, contentTime, blockTime)] && difficulty == DefaultDifficulty
      ensures ChainValid(s, chain)
    {
      var content := RsContent.NewRecord(s, Text, GenesisData, GenesisTitle, GenesisDescription, None, None, None, contentTime);
      chain := [NewBlock(s, 0, content, GenesisAuthor, ZeroHash(), blockTime)];
      difficulty := DefaultDifficulty;
    }

    function GetLatestBlock(): (r: Option<BlockValue>)
      reads this
      ensures r.None? <==> chain == []
      ensures r.Some? ==> r.value == chain[|chain| - 1]
    {
      if chain != [] then Some(chain[|chain| - 1]) else None
    }

    /** `add_block`: a mined block after the latest one is pushed and returned. `None`
        stands for the panic of `unwrap` on an empty vector, where nothing is pushed. */
    method AddBlock(s: Suite, content: ContentRecord, author: string, now: int) returns (r: Option<BlockValue>)
      modifies this
      ensures old(chain) == [] ==> r.None? && chain == old(chain)
      ensures old(chain) != [] ==> r == Some(Appended(s, old(chain)[|old(chain)| - 1], content, author, now, difficulty))
                                    && chain == old(chain) + [r.value]
      ensures difficulty == old(difficulty)
    {
      var latest := GetLatestBlock();
      if latest.None? {
        return None;
      }
      var previous := latest.value;
      var block := NewBlock(s, previous.index + 1, content, author, previous.hash, now);
      var mined, _ := Mine(s, block, difficulty);
      chain := chain + [mined];
      return Some(mined);
    }

    /** `is_valid`: walks the links from the second block on and stops at the first
        mismatch. */
    method IsValid(s: Suite) returns (ok: bool)
      ensures ok == ChainValid(s, chain)
    {
      var i := 1;
      while i < |chain|
        invariant 1 <= i && (chain != [] ==> i <= |chain| && ChainValid(s, chain[..i]))
      {
        var current := chain[i];
        var previous := chain[i - 1];
        if current.hash != CalculateHash(s, current) {
          return false;
        }
        if current.previousHash != previous.hash {
          return false;
        }
        ValidPrefixStep(s, chain, i);
        i := i + 1;
      }
      TakeAll(chain);
      return true;
    }

    /** `get_block`: the block at that position, if there is one. */
    function GetBlock(index: nat): (r: Option<BlockValue>)
      reads this
      ensures r.Some? <==> index < |chain|
      ensures r.Some? ==> r.value == chain[index]
    {
      if index < |chain| then Some(chain[index]) else None
    }

    /** `get_block_by_hash`: the first block with that hash. */
    function GetBlockByHash(hash: string): (r: Option<BlockValue>)
      reads this
      ensures r.None? <==> forall k :: 0 <= k < |chain| ==> chain[k].hash != hash
      ensures r.Some? ==> exists i :: 0 <= i < |chain| && chain[i] == r.value && r.value.hash == hash
                                      && forall k :: 0 <= k < i ==> chain[k].hash != hash
    {
      match FirstWithHash(chain, hash)
      case None => None
      case Some(i) => Some(chain[i])
    }

    /** `get_blocks_by_author`: the blocks written by `author`, in chain order
        (`Ledger.ByAuthorAppend`). */
    function GetBlocksByAuthor(author: string): (r: seq<BlockValue>)
      reads this
      ensures forall b :: b in r <==> b in chain && b.author == author
      ensures |r| <= |chain|
      ensures r == ByAuthor(chain, author)
    {
      ByAuthor(chain, author)
    }

    /** `len`. */
    function Len(): (n: nat)
      reads this
      ensures n == |chain|
    {
      |chain|
    }
  }
}
