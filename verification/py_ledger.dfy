/** The blockchain module of the Python protocol package. A block holds a reference to a
    content object, its own hash and a nonce that mining changes in place; the chain is
    a list of blocks and a difficulty. Blocks are compared through value snapshots
    (`BlockValue`), on which validity, appending and the JSON mapping are defined. */
module PyLedger {
  import opened Outcomes
  import opened Text
  import opened Crypto
  import opened Json
  import opened ContentData
  import opened Mining
  import opened Seqs
  import opened Ledger
  import PyContent

  /** The text `calculate_hash` hashes: the decimal index and timestamp, the content's
      JSON text, the author, the previous hash and the decimal nonce, with no separators. */
  function HashInput(s: Suite, v: BlockValue): string
  {
    IntToString(v.index) + IntToString(v.timestamp) + s.jsonDump(PyContent.ToJson(v.content))
    + v.author + v.previousHash + IntToString(v.nonce)
  }

  function CalculateHash(s: Suite, v: BlockValue): string
  {
    s.hex(s.sha256(s.utf8(HashInput(s, v))))
  }

  /** A block hash is 64 hex digits and does not depend on the stored hash. */
  lemma CalculateHashShape(s: Suite, v: BlockValue, stored: string)
    requires HashLaws(s) && HexLaws(s)
    ensures |CalculateHash(s, v)| == 64
    ensures forall i :: 0 <= i < 64 ==> IsHexDigit(CalculateHash(s, v)[i])
    ensures CalculateHash(s, v.(hash := stored)) == CalculateHash(s, v)
  {
    assert |s.sha256(s.utf8(HashInput(s, v)))| == 32;
  }

  /** With no separators between the numbers, index 1 at time 23 and index 12 at time 3
      hash alike: the hash does not pin down where the index ends. */
  lemma HashInputAmbiguous(s: Suite, v: BlockValue)
    ensures CalculateHash(s, v.(index := 1, timestamp := 23)) == CalculateHash(s, v.(index := 12, timestamp := 3))
  {
    assert IntToString(1) + IntToString(23) == IntToString(12) + IntToString(3);
  }

  /** The block's hash as a function of its nonce, everything else held fixed. */
  function NonceHash(s: Suite, v: BlockValue): int -> string
  {
    (n: int) => CalculateHash(s, v.(nonce := n))
  }

  /** `mine` on a snapshot: nothing happens if the stored hash already meets the
      difficulty, otherwise the nonce moves to where the loop stops and the hash is
      recomputed for it. */
  function Mined(s: Suite, v: BlockValue, difficulty: int): (m: BlockValue)
    ensures m == v || (m.nonce > v.nonce && m.hash == CalculateHash(s, m))
    ensures Meets(m.hash, difficulty) || m.nonce > MaxNonce
    ensures m.nonce <= (if v.nonce < MaxNonce then MaxNonce + 1 else v.nonce + 1)
    ensures m == v.(nonce := m.nonce, hash := m.hash)
    ensures difficulty <= 0 ==> m == v
  {
    if Meets(v.hash, difficulty) then v
    else
      var n := StopNonce(NonceHash(s, v), difficulty, v.nonce);
      assert NonceHash(s, v)(n) == CalculateHash(s, v.(nonce := n));
      v.(nonce := n, hash := CalculateHash(s, v.(nonce := n)))
  }

  /** Mining stops at the first nonce that works: every nonce it skipped fails. */
  lemma MinedIsFirst(s: Suite, v: BlockValue, difficulty: int)
    ensures var m := Mined(s, v, difficulty);
            forall k :: v.nonce < k < m.nonce ==> !Meets(CalculateHash(s, v.(nonce := k)), difficulty)
  {
    if !Meets(v.hash, difficulty) {
      var n := StopNonce(NonceHash(s, v), difficulty, v.nonce);
      StopNonceIsFirst(NonceHash(s, v), difficulty, v.nonce);
      forall k | v.nonce < k < n ensures !Meets(CalculateHash(s, v.(nonce := k)), difficulty) {
        assert NonceHash(s, v)(k) == CalculateHash(s, v.(nonce := k));
      }
    }
  }

  /** Mining keeps a correct stored hash correct. */
  lemma MinedHashCorrect(s: Suite, v: BlockValue, difficulty: int)
    requires v.hash == CalculateHash(s, v)
    ensures Mined(s, v, difficulty).hash == CalculateHash(s, Mined(s, v, difficulty))
  {
  }

  /** `Block.new` on a snapshot: nonce 0 and the hash computed for it. */
  function NewBlock(s: Suite, index: int, content: ContentRecord, author: string,
                    previousHash: string, now: int): (v: BlockValue)
    ensures v.nonce == 0 && v.hash == CalculateHash(s, v)
    ensures v.index == index && v.timestamp == now && v.content == content
    ensures v.author == author && v.previousHash == previousHash
  {
    var v := BlockValue(index, now, content, author, previousHash, "", 0);
    v.(hash := CalculateHash(s, v))
  }

  /** The block `add_block` appends to a chain whose snapshot is `chain`. */
  function Appended(s: Suite, chain: seq<BlockValue>, content: ContentRecord, author: string,
                    now: int, difficulty: int): (v: BlockValue)
    ensures chain != [] ==> v.index == chain[|chain| - 1].index + 1 && v.previousHash == chain[|chain| - 1].hash
    ensures chain == [] ==> v.index == 0 && v.previousHash == ZeroHash()
    ensures v.hash == CalculateHash(s, v)
    ensures v.content == content && v.author == author && v.timestamp == now
  {
    var index := if chain != [] then chain[|chain| - 1].index + 1 else 0;
    var previous := if chain != [] then chain[|chain| - 1].hash else ZeroHash();
    MinedHashCorrect(s, NewBlock(s, index, content, author, previous, now), difficulty);
    Mined(s, NewBlock(s, index, content, author, previous, now), difficulty)
  }

  /** `is_valid` on a snapshot: every block after the first carries its own correct hash
      and the hash of the block before it. The first block, proof of work and the
      indices are not checked. */
  predicate ChainValid(s: Suite, chain: seq<BlockValue>) {
    forall i :: 1 <= i < |chain| ==>
      chain[i].hash == CalculateHash(s, chain[i]) && chain[i].previousHash == chain[i - 1].hash
  }

  /** A block with a correct hash that links to the last block extends a valid chain. */
  lemma LinkedAppendValid(s: Suite, chain: seq<BlockValue>, v: BlockValue)
    requires ChainValid(s, chain) && v.hash == CalculateHash(s, v)
    requires chain != [] ==> v.previousHash == chain[|chain| - 1].hash
    ensures ChainValid(s, chain + [v])
  {
    var c := chain + [v];
    forall i | 1 <= i < |c| ensures c[i].hash == CalculateHash(s, c[i]) && c[i].previousHash == c[i - 1].hash {
      if i < |chain| {
        assert c[i] == chain[i] && c[i - 1] == chain[i - 1];
      } else {
        assert c[i] == v && c[i - 1] == chain[|chain| - 1];
      }
    }
  }

  /** Appending with `add_block` keeps a valid chain valid. */
  lemma AppendKeepsValid(s: Suite, chain: seq<BlockValue>, content: ContentRecord, author: string,
                         now: int, difficulty: int)
    requires ChainValid(s, chain)
    ensures ChainValid(s, chain + [Appended(s, chain, content, author, now, difficulty)])
  {
    LinkedAppendValid(s, chain, Appended(s, chain, content, author, now, difficulty));
  }

  /** A valid prefix grows by one block whose links are right. */
  lemma ValidPrefixStep(s: Suite, chain: seq<BlockValue>, i: nat)
    requires 1 <= i < |chain| && ChainValid(s, chain[..i])
    requires chain[i].hash == CalculateHash(s, chain[i]) && chain[i].previousHash == chain[i - 1].hash
    ensures ChainValid(s, chain[..i + 1])
  {
    TakeNext(chain, i);
    LinkedAppendValid(s, chain[..i], chain[i]);
  }

  /** One wrong hash or one broken link after the first block makes the chain invalid. */
  lemma BrokenLink(s: Suite, chain: seq<BlockValue>, i: nat)
    requires 1 <= i < |chain|
    requires chain[i].hash != CalculateHash(s, chain[i]) || chain[i].previousHash != chain[i - 1].hash
    ensures !ChainValid(s, chain)
  {
  }

  /** A one-block chain is valid whatever its block holds. */
  lemma SingleBlockValid(s: Suite, v: BlockValue)
    ensures ChainValid(s, [v])
  {
  }

  /** Changing a later block's content without fixing its hash is detected, unless the
      new content happens to hash to the stored value. */
  lemma TamperedContentDetected(s: Suite, chain: seq<BlockValue>, i: nat, c: ContentRecord)
    requires ChainValid(s, chain) && 1 <= i < |chain|
    requires CalculateHash(s, chain[i].(content := c)) != chain[i].hash
    ensures !ChainValid(s, chain[i := chain[i].(content := c)])
  {
    var t := chain[i := chain[i].(content := c)];
    assert t[i].hash != CalculateHash(s, t[i]);
  }

  /** Overwriting the stored hash of a later block with any other value is detected. */
  lemma StoredHashReplacedDetected(s: Suite, chain: seq<BlockValue>, i: nat, h: string)
    requires ChainValid(s, chain) && 1 <= i < |chain| && h != chain[i].hash
    ensures !ChainValid(s, chain[i := chain[i].(hash := h)])
  {
    var t := chain[i := chain[i].(hash := h)];
    assert HashInput(s, t[i]) == HashInput(s, chain[i]);
    assert t[i].hash != CalculateHash(s, t[i]);
  }

  /** Rehashing a tampered block moves the problem to the next link. */
  lemma RehashedBlockDetected(s: Suite, chain: seq<BlockValue>, i: nat, v: BlockValue)
    requires ChainValid(s, chain) && i + 1 < |chain| && v.hash != chain[i].hash
    ensures !ChainValid(s, chain[i := v])
  {
    var t := chain[i := v];
    assert t[i + 1].previousHash != t[i].hash;
  }

  /** The snapshot of the chain `Blockchain()` creates when given no blocks. */
  function GenesisRecord(s: Suite, contentTime: int): ContentRecord
  {
    PyContent.NewRecord(s, Text, GenesisData, GenesisTitle, GenesisDescription, None, None, None, contentTime)
  }

  function Genesis(s: Suite, contentTime: int, blockTime: int): (v: BlockValue)
    ensures v.index == 0 && v.nonce == 0 && v.previousHash == ZeroHash() && v.author == GenesisAuthor
    ensures v.hash == CalculateHash(s, v) && v.content.data == GenesisData
  {
    NewBlock(s, 0, GenesisRecord(s, contentTime), GenesisAuthor, ZeroHash(), blockTime)
  }

  /** `Block.to_json` as a document value. */
  function BlockToJson(v: BlockValue): (j: Json)
    ensures j.JObj? && "content" in j.fields && j.fields["content"] == PyContent.ToJson(v.content)
  {
    JObj(map[
      "index" := JInt(v.index),
      "timestamp" := JInt(v.timestamp),
      "content" := PyContent.ToJson(v.content),
      "author" := JStr(v.author),
      "previous_hash" := JStr(v.previousHash),
      "hash" := JStr(v.hash),
      "nonce" := JInt(v.nonce)
    ])
  }

  /** `Block.from_json`: the content is read first, then the block's own fields; every
      key is required. */
  function BlockFromJson(j: Json): (r: Result<BlockValue, DecodeError>)
    ensures r.Ok? ==> j.JObj? && "content" in j.fields && PyContent.FromJson(j.fields["content"]) == Ok(r.value.content)
    ensures r.Ok? ==> "hash" in j.fields && j.fields["hash"] == JStr(r.value.hash)
    ensures r.Ok? ==> "nonce" in j.fields && j.fields["nonce"] == JInt(r.value.nonce)
  {
    if !j.JObj? then Err(NotAnObject)
    else
      var o := j.fields;
      var content :- if "content" in o then PyContent.FromJson(o["content"]) else Err(MissingKey("content"));
      var index :- GetInt(o, "index");
      var timestamp :- GetInt(o, "timestamp");
      var author :- GetStr(o, "author");
      var previousHash :- GetStr(o, "previous_hash");
      var hash :- GetStr(o, "hash");
      var nonce :- GetInt(o, "nonce");
      Ok(BlockValue(index, timestamp, content, author, previousHash, hash, nonce))
  }

  /** `Block.from_json` succeeds with `v` on any object that holds `v`'s fields. */
  lemma BlockFromFields(o: map<string, Json>, v: BlockValue)
    requires "content" in o && PyContent.FromJson(o["content"]) == Ok(v.content)
    requires "index" in o && o["index"] == JInt(v.index)
    requires "timestamp" in o && o["timestamp"] == JInt(v.timestamp)
    requires "author" in o && o["author"] == JStr(v.author)
    requires "previous_hash" in o && o["previous_hash"] == JStr(v.previousHash)
    requires "hash" in o && o["hash"] == JStr(v.hash)
    requires "nonce" in o && o["nonce"] == JInt(v.nonce)
    ensures BlockFromJson(JObj(o)) == Ok(v)
  {
  }

  lemma BlockJsonRoundTrip(v: BlockValue)
    ensures BlockFromJson(BlockToJson(v)) == Ok(v)
  {
    PyContent.JsonRoundTrip(v.content);
    BlockFromFields(BlockToJson(v).fields, v);
  }

  /** `Blockchain.to_json` as a document value. */
  function ChainToJson(chain: seq<BlockValue>, difficulty: int): (j: Json)
    ensures j.JObj? && j.fields.Keys == {"chain", "difficulty"}
    ensures j.fields["chain"].JArr? && |j.fields["chain"].items| == |chain|
    ensures forall i :: 0 <= i < |chain| ==> j.fields["chain"].items[i] == BlockToJson(chain[i])
  {
    JObj(map[
      "chain" := JArr(seq(|chain|, i requires 0 <= i < |chain| => BlockToJson(chain[i]))),
      "difficulty" := JInt(difficulty)
    ])
  }

  function BlocksFromJson(items: seq<Json>): (r: Result<seq<BlockValue>, DecodeError>)
    ensures r.Ok? ==> |r.value| == |items| && forall i :: 0 <= i < |items| ==> BlockFromJson(items[i]) == Ok(r.value[i])
  {
    if items == [] then Ok([])
    else
      var first :- BlockFromJson(items[0]);
      var rest :- BlocksFromJson(items[1..]);
      assert forall i :: 1 <= i < |items| ==> items[i] == items[1..][i - 1];
      Ok([first] + rest)
  }

  /** `Blockchain.from_json` before the constructor runs: the blocks, then the difficulty. */
  function ChainFromJson(j: Json): (r: Result<(seq<BlockValue>, int), DecodeError>)
  {
    if !j.JObj? then Err(NotAnObject)
    else if "chain" !in j.fields then Err(MissingKey("chain"))
    else if !j.fields["chain"].JArr? then Err(WrongType("chain"))
    else
      var blocks :- BlocksFromJson(j.fields["chain"].items);
      var difficulty :- GetInt(j.fields, "difficulty");
      Ok((blocks, difficulty))
  }

  lemma {:induction false} BlocksRoundTrip(chain: seq<BlockValue>)
    ensures BlocksFromJson(seq(|chain|, i requires 0 <= i < |chain| => BlockToJson(chain[i]))) == Ok(chain)
  {
    var items := seq(|chain|, i requires 0 <= i < |chain| => BlockToJson(chain[i]));
    if chain != [] {
      BlockJsonRoundTrip(chain[0]);
      BlocksRoundTrip(chain[1..]);
      assert items[1..] == seq(|chain[1..]|, i requires 0 <= i < |chain[1..]| => BlockToJson(chain[1..][i]));
      assert [chain[0]] + chain[1..] == chain;
    }
  }

  /** Exporting a chain and importing it gives the same blocks and difficulty back. */
  lemma ChainJsonRoundTrip(chain: seq<BlockValue>, difficulty: int)
    ensures ChainFromJson(ChainToJson(chain, difficulty)) == Ok((chain, difficulty))
  {
    BlocksRoundTrip(chain);
  }

  /** A block: fields of its own and a reference to a content object. */
  class Block {
    var index: int
    var timestamp: int
    var content: PyContent.Content
    var author: string
    var previousHash: string
    var hash: string
    var nonce: int

    function Value(): BlockValue
      reads this, content
    {
      BlockValue(index, timestamp, content.Record(), author, previousHash, hash, nonce)
    }

    /** `Block.new`; `now` is the clock reading. */
    constructor New(s: Suite, index: int, content: PyContent.Content, author: string,
                    previousHash: string, now: int)
      ensures this.content == content
      ensures Value() == NewBlock(s, index, content.Record(), author, previousHash, now)
    {
      this.index, this.timestamp, this.content := index, now, content;
      this.author, this.previousHash, this.nonce := author, previousHash, 0;
      this.hash := CalculateHash(s, BlockValue(index, now, content.Record(), author, previousHash, "", 0));
    }

    function Hash(s: Suite): (h: string)
      reads this, content
    {
      CalculateHash(s, Value())
    }

    /** `mine`: raises the nonce and rehashes, in place, until the hash meets the
        difficulty or the nonce passes one million. */
    method Mine(s: Suite, difficulty: int)
      modifies this
      ensures Value() == Mined(s, old(Value()), difficulty)
      ensures content == old(content)
    {
      ghost var v := Value();
      ghost var h := NonceHash(s, v);
      var target := Target(difficulty);
      if StartsWith(hash, target) {
        return;
      }
      ghost var stop := StopNonce(h, difficulty, v.nonce);
      while !StartsWith(hash, target)
        invariant content == old(content)
        invariant index == v.index && timestamp == v.timestamp && author == v.author && previousHash == v.previousHash
        invariant v.nonce <= nonce && (nonce == v.nonce ==> hash == v.hash) && (nonce != v.nonce ==> hash == h(nonce))
        invariant Meets(hash, difficulty) ==> stop == nonce
        invariant !Meets(hash, difficulty) ==> stop == StopNonce(h, difficulty, nonce) && (nonce != v.nonce ==> nonce <= MaxNonce)
        decreases MaxNonce + 1 - nonce
      {
        nonce := nonce + 1;
        hash := CalculateHash(s, Value());
        assert Value().(hash := v.hash) == v.(nonce := nonce);
        if nonce > MaxNonce {
          break;
        }
      }
      assert nonce == stop;
    }
  }

  /** The whole chain and the mining difficulty. The list holds a snapshot of each block
      as it was appended. */
  class Blockchain {
    var chain: seq<BlockValue>
    var difficulty: int

    /** The dataclass constructor with `__post_init__`: an empty list gets a genesis block
        built from the two clock readings. */
    constructor (s: Suite, chain: seq<BlockValue>, difficulty: int, contentTime: int, blockTime: int)
      ensures this.chain == if chain == [] then [Genesis(s, contentTime, blockTime)] else chain
      ensures this.difficulty == difficulty
    {
      this.difficulty := difficulty;
      if chain == [] {
        var c := new PyContent.Content.New(s, Text, GenesisData, GenesisTitle, GenesisDescription,
                                           None, None, None, contentTime);
        var b := new Block.New(s, 0, c, GenesisAuthor, ZeroHash(), blockTime);
        this.chain := [b.Value()];
      } else {
        this.chain := chain;
      }
    }

    function GetLatestBlock(): (r: Option<BlockValue>)
      reads this
      ensures r.None? <==> chain == []
      ensures r.Some? ==> r.value == chain[|chain| - 1]
    {
      if chain != [] then Some(chain[|chain| - 1]) else None
    }

    /** `add_block`: a new block after the latest one (or a first block on an empty
        list), mined at the chain's difficulty and appended. */
    method AddBlock(s: Suite, content: PyContent.Content, author: string, now: int) returns (b: Block)
      modifies this
      ensures fresh(b) && b.content == content
      ensures b.Value() == Appended(s, old(chain), content.Record(), author, now, difficulty)
      ensures chain == old(chain) + [b.Value()] && difficulty == old(difficulty)
    {
      var latest := GetLatestBlock();
      var index := if latest.Some? then latest.value.index + 1 else 0;
      var previous := if latest.Some? then latest.value.hash else ZeroHash();
      b := new Block.New(s, index, content, author, previous, now);
      b.Mine(s, difficulty);
      chain := chain + [b.Value()];
    }

    /** `is_valid`: walks the links from the second block on. */
    method IsValid(s: Suite) returns (ok: bool)
      ensures ok == ChainValid(s, chain)
    {
      var i := 1;
      while i < |chain|
        invariant 1 <= i && (chain != [] ==> i <= |chain| && ChainValid(s, chain[..i]))
      {
        var current := chain[i];
        var previous := chain[i - 1];
        if current.hash != CalculateHash(s, current) || current.previousHash != previous.hash {
          BrokenLink(s, chain, i);
          return false;
        }
        ValidPrefixStep(s, chain, i);
        i := i + 1;
      }
      TakeAll(chain);
      return true;
    }

    function GetBlock(index: int): (r: Option<BlockValue>)
      reads this
      ensures r.Some? <==> 0 <= index < |chain|
      ensures r.Some? ==> r.value == chain[index]
    {
      if 0 <= index < |chain| then Some(chain[index]) else None
    }

    /** `get_block_by_hash`: the first block with that hash. */
    method GetBlockByHash(hash: string) returns (r: Option<BlockValue>)
      ensures var first := FirstWithHash(chain, hash);
              (r.None? <==> first.None?) && (r.Some? ==> r.value == chain[first.value])
    {
      for i := 0 to |chain|
        invariant forall k :: 0 <= k < i ==> chain[k].hash != hash
      {
        if chain[i].hash == hash {
          return Some(chain[i]);
        }
      }
      return None;
    }

    /** `get_blocks_by_author`: the blocks written by `author`, in chain order
        (`Ledger.ByAuthorAppend`). */
    function GetBlocksByAuthor(author: string): (r: seq<BlockValue>)
      reads this
      ensures forall v :: v in r <==> v in chain && v.author == author
      ensures |r| <= |chain|
      ensures r == ByAuthor(chain, author)
    {
      ByAuthor(chain, author)
    }

    /** `__len__`. */
    function Len(): (n: nat)
      reads this
      ensures n == |chain|
    {
      |chain|
    }

    function ToJson(): (j: Json)
      reads this
      ensures ChainFromJson(j) == Ok((chain, difficulty))
    {
      ChainJsonRoundTrip(chain, difficulty);
      ChainToJson(chain, difficulty)
    }

    /** `Blockchain.from_json`: the blocks and the difficulty are read, then the
        constructor adds a genesis block to an empty list. */
    static method FromJson(s: Suite, j: Json, contentTime: int, blockTime: int) returns (r: Result<Blockchain, DecodeError>)
      ensures r.Err? <==> ChainFromJson(j).Err?
      ensures r.Ok? ==> fresh(r.value) && r.value.difficulty == ChainFromJson(j).value.1
      ensures r.Ok? ==> r.value.chain == if ChainFromJson(j).value.0 == [] then [Genesis(s, contentTime, blockTime)]
                                         else ChainFromJson(j).value.0
    {
      var parsed := ChainFromJson(j);
      if parsed.Err? {
        return Err(parsed.error);
      }
      var chain := new Blockchain(s, parsed.value.0, parsed.value.1, contentTime, blockTime);
      return Ok(chain);
    }
  }
}
