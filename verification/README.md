# RootlessNet protocol core in Dafny

This project models the data layer of RootlessNet and proves properties of the model. The data layer comes in two forms.

- **The protocol package.** It exists as a Python package (`tui_protocol/python/rootlessnet`) and a Rust crate (`tui_protocol/rust/src`). It has three parts:
  - content records with tags and JSON documents;
  - a proof-of-work ledger of those records;
  - user identities with Ed25519 keys, a padded public-key string, a 100-word mnemonic and a password-protected backup.
- **The terminal client's core.** Its Python side (`rootlessnet-tui/python/rootlessnet_tui/core.py`) has three parts:
  - DID/CID identities signed with HMAC-SHA256;
  - content signed with those identities;
  - end-to-end messages sealed with a SHA-256 counter-mode keystream and an HMAC tag.

  Its Rust side (`rootlessnet-tui/rust/src/content.rs`) adds content signed with Ed25519 and checked by a verifier that reports every failure as an error.

The model has one module per source file:

| module | models |
|---|---|
| `PyContent`, `RsContent` | the two `content` files |
| `PyLedger`, `RsLedger` | the two `blockchain` files |
| `PyIdentity`, `RsIdentity` | the two `identity` files |
| `TuiCore` | the identities and content of `core.py` |
| `TuiMessaging` | the messaging of `core.py` |
| `SignedContent` | `rootlessnet-tui/rust/src/content.rs` |

Shared modules hold what both languages do alike:

- `ContentData`: the content record, its identifier, and tag insertion and removal.
- `Ledger`: block values, lookup by hash and by author.
- `Mining`: the proof-of-work target and the stopping nonce.
- `Keys`: the public-key string and the mnemonic.

Helper modules: `Outcomes`, `Seqs`, `Text`, `Json`, `Crypto`.

## How the primitives are modelled

Cryptographic and encoding primitives are fields of a `Crypto.Suite` value passed to every operation:

- hashes: SHA-256, BLAKE2b-16, BLAKE3, HMAC-SHA256;
- Ed25519;
- hex, base58, UTF-8, JSON text;
- scrypt, ChaCha20-Poly1305.

A property that depends on a primitive's behaviour names that behaviour as a predicate over the suite, and takes it as a precondition:

- `HashLaws`: digest lengths;
- `HexLaws`: hex decodes what it encodes, using lower-case digits;
- `Utf8Laws`;
- `JsonTextLaws`: parsing inverts dumping;
- `SignatureLaws`: key and signature lengths, and a signature verifies under its key;
- `AeadLaws`: opening inverts sealing.

Clocks are `now` parameters. Random bytes are parameters. Random choices are a `Draws` function from draw number to a natural number; a choice below `n` is `draws(i) % n`.

Objects that the source mutates are classes:
- the Python `Content` and `Block`;
- both `Blockchain`s;
- the Rust `Content`.

Their methods are proved against functions on values. Rust blocks are cloned in and out of the chain, so they are values.

## Model

| member | source | states |
|---|---|---|
| ContentData.ContentIdShape | tui_protocol/python/rootlessnet/content.py:164-169 | the content id is the hex SHA-256 of the data followed by the decimal timestamp: 64 lower-case hex digits |
| ContentData.ContentId | tui_protocol/python/rootlessnet/content.py:164-169 | with the hash and hex laws, the content id has 64 characters |
| ContentData.WithTag | tui_protocol/python/rootlessnet/content.py:171-174 | after adding, the tag is present. An existing tag leaves the list unchanged; a new tag is appended at the end |
| ContentData.WithTagIdempotent | tui_protocol/python/rootlessnet/content.py:171-174 | adding the same tag twice is the same as adding it once |
| ContentData.WithTagNoDuplicates | tui_protocol/python/rootlessnet/content.py:171-174 | adding a tag keeps a duplicate-free list duplicate-free |
| ContentData.FirstIndex | tui_protocol/python/rootlessnet/content.py:176-179 | the index of the first occurrence of a present tag |
| ContentData.RemoveFirst | tui_protocol/python/rootlessnet/content.py:176-179 | an absent tag leaves the list unchanged. Otherwise only the first occurrence is cut out |
| ContentData.RemoveFirstCount | tui_protocol/python/rootlessnet/content.py:176-179 | Python removal takes exactly one copy of the tag out of the multiset of tags |
| ContentData.RemoveAll | tui_protocol/rust/src/content.rs:247-250 | after Rust removal the tag is absent, and every other tag is kept |
| ContentData.RemoveAllAppend | tui_protocol/rust/src/content.rs:247-250 | removal distributes over appending one tag, so the kept tags stay in their original order |
| ContentData.RemoveAllCount | tui_protocol/rust/src/content.rs:247-250 | Rust removal zeroes the tag's count and leaves every other count unchanged |
| ContentData.RemoveAllIsRemoveFirst | tui_protocol/rust/src/content.rs:247-250 | on a duplicate-free list the Rust and Python removals agree |
| ContentData.RemoveAllDiffersOnDuplicates | tui_protocol/rust/src/content.rs:247-250 | on `["a","a"]` the two removals differ: Rust leaves `[]`, Python leaves `["a"]` |
| PyContent.TypeValueRoundTrip | tui_protocol/python/rootlessnet/content.py:15-20 | `ContentType(v)` accepts exactly the four enum values, each naming its own member |
| PyContent.TypeValue | tui_protocol/python/rootlessnet/content.py:15-20 | each member's value reads back as that member through `ContentType(v)` |
| PyContent.FileName | tui_protocol/python/rootlessnet/content.py:89 | the file name is a suffix of the path with no `/`. When shorter than the path, a `/` comes just before it |
| PyContent.TypeLookup | tui_protocol/python/rootlessnet/content.py:15-20 | every content type is recovered from its value |
| PyContent.NewRecord | tui_protocol/python/rootlessnet/content.py:39-65 | `size` is the character count of the data and `id` is the content id for the clock reading. Missing tags become `[]`; the other fields are stored as given |
| PyContent.PictureMime | tui_protocol/python/rootlessnet/content.py:89-99 | the MIME type guessed from the lower-cased file name: png, jpeg for `.jpg`/`.jpeg`, gif, else unknown |
| PyContent.VideoMime | tui_protocol/python/rootlessnet/content.py:121-131 | the MIME type guessed from the lower-cased file name: mp4, webm, avi, else unknown |
| PyContent.SuffixesExclusive | tui_protocol/python/rootlessnet/content.py:92-99 | suffixes that differ at some position from the end cannot both match, so the order of the guessing branches does not matter |
| PyContent.Preview | tui_protocol/python/rootlessnet/content.py:228 | data of at most 50 characters is shown whole. Longer data is its first 50 characters plus `...`, 53 characters in all |
| PyContent.Summary | tui_protocol/python/rootlessnet/content.py:226-229 | the summary is the head `[type] title - ` followed by `PyContent.Preview` of the data, so at most 53 characters longer than the head |
| PyContent.FromJson | tui_protocol/python/rootlessnet/content.py:197-211 | success needs an object with `id`, `size` and `created_at`. Missing `tags` reads as `[]` |
| PyContent.FromJsonFields | tui_protocol/python/rootlessnet/content.py:197-211 | any object holding the ten fields of a record, with optional fields possibly absent, decodes to that record |
| PyContent.JsonRoundTrip | tui_protocol/python/rootlessnet/content.py:181-211 | `from_json(to_json(c))` gives back `c` |
| PyContent.ToJson | tui_protocol/python/rootlessnet/content.py:181-194 | the document is an object whose `content_type` is the type's value, which reads back as the same type |
| PyContent.JsonDefaults | tui_protocol/python/rootlessnet/content.py:206-210 | a document without `filename`, `mime_type` and `tags` decodes with those defaults |
| PyContent.Content.FromRecord | tui_protocol/python/rootlessnet/content.py:23-36 | the dataclass holds exactly the given fields |
| PyContent.Content.New | tui_protocol/python/rootlessnet/content.py:39-65 | the new object's fields are `NewRecord` of the arguments |
| PyContent.Content.TextContent | tui_protocol/python/rootlessnet/content.py:68-76 | a fresh Text record with MIME type `text/plain` |
| PyContent.Content.PictureContent | tui_protocol/python/rootlessnet/content.py:79-108 | a fresh Picture record. The file name is the last `/` segment of the path, and the MIME type is guessed from it |
| PyContent.Content.VideoContent | tui_protocol/python/rootlessnet/content.py:111-140 | a fresh Video record. The file name is the last `/` segment of the path, and the MIME type is guessed from it |
| PyContent.Content.FileContent | tui_protocol/python/rootlessnet/content.py:143-161 | a fresh File record with the file name and no MIME type |
| PyContent.Content.AddTag | tui_protocol/python/rootlessnet/content.py:171-174 | tags become `WithTag` of the old tags, the list stays duplicate-free, and no other field changes |
| PyContent.Content.RemoveTag | tui_protocol/python/rootlessnet/content.py:176-179 | tags lose the first occurrence only, one copy leaves the multiset, and no other field changes |
| PyContent.Content.ToJsonDocument | tui_protocol/python/rootlessnet/content.py:181-194 | the document decodes back to the object's current fields |
| RsContent.TypeFromStr | tui_protocol/rust/src/content.rs:37-50 | an unknown name fails with `Unknown content type: <name>` |
| RsContent.TypeFromStrAccepts | tui_protocol/rust/src/content.rs:37-50 | a name is accepted iff its lower-case form is text, picture, image, video or file. Text comes from exactly `text`, Picture from `picture` and `image`, Video from `video`, File from `file` |
| RsContent.TypeNameRoundTrip | tui_protocol/rust/src/content.rs:26-50 | `from_str(__str__(t))` gives `t` |
| RsContent.TypeName | tui_protocol/rust/src/content.rs:26-33 | the variant name `__str__` returns is the one serde reads back as the same type |
| RsContent.NewRecord | tui_protocol/rust/src/content.rs:100-127 | `size` is the UTF-8 byte length, never below the character count. `id` is the content id of data and clock; missing tags become empty; the other fields are as given |
| RsContent.GuessPictureMime | tui_protocol/rust/src/content.rs:153-163 | png iff the name ends `.png`, jpeg iff `.jpg` or `.jpeg`, gif iff `.gif`, compared case-sensitively. `image/unknown` iff none of these suffixes |
| RsContent.GuessVideoMime | tui_protocol/rust/src/content.rs:186-196 | mp4, webm and avi each iff the name has that suffix, compared case-sensitively. `video/unknown` iff none of them |
| RsContent.PictureMime | tui_protocol/rust/src/content.rs:146-163 | a supplied MIME type wins; otherwise the type is guessed from the name |
| RsContent.VideoMime | tui_protocol/rust/src/content.rs:179-196 | a supplied MIME type wins; otherwise the type is guessed from the name |
| RsContent.PictureGuessesAgree | tui_protocol/rust/src/content.rs:153-163 | on lower-case names the Rust and Python picture guesses agree |
| RsContent.VideoGuessesAgree | tui_protocol/rust/src/content.rs:186-196 | on lower-case names the Rust and Python video guesses agree |
| RsContent.MimeCaseDiffers | tui_protocol/rust/src/content.rs:153-163 | `SUNSET.JPG` is `image/unknown` in Rust but `image/jpeg` in Python |
| RsContent.SummaryAsWritten | tui_protocol/rust/src/content.rs:287-295 | the summary as written: it panics (`None`) exactly when the data is over 50 bytes and byte 50 is not a character boundary |
| RsContent.SplitCharacterPanics | tui_protocol/rust/src/content.rs:288-289 | 49 ASCII characters followed by a two-byte character make the summary panic |
| RsContent.SummaryPanicsOnSplitCharacter | tui_protocol/rust/src/content.rs:288-289 | the concrete input `"a"*49 + "é"` makes the summary panic |
| RsContent.AsciiLength | tui_protocol/rust/src/content.rs:109 | for ASCII data the byte length equals the character count |
| RsContent.SummaryLine | tui_protocol/rust/src/content.rs:287-295 | the corrected summary equals the as-written one whenever that one does not panic. It always starts with `[Type] title - ` |
| RsContent.SummaryPreview | tui_protocol/rust/src/content.rs:288-294 | data of at most 50 bytes appears whole. Longer data is cut at the last character boundary at or before byte 50, then `...` is added |
| RsContent.FromJson | tui_protocol/rust/src/content.rs:259-262 | success needs an object with `tags` and `content_type`, the type written as its variant name, and values within the `u64`/`i64` ranges |
| RsContent.VariantLookup | tui_protocol/rust/src/content.rs:11-21 | every variant name is read back as its variant |
| RsContent.FromJsonFields | tui_protocol/rust/src/content.rs:259-262 | an object holding all ten serialised fields decodes to that record |
| RsContent.JsonRoundTrip | tui_protocol/rust/src/content.rs:252-262 | for a record within the integer ranges, `from_json(to_json(c))` gives back `c` |
| RsContent.ToJson | tui_protocol/rust/src/content.rs:252-255 | the document is an object whose `content_type` is the variant name, which reads back as the same type |
| RsContent.PythonDocumentRejected | tui_protocol/rust/src/content.rs:259-262 | a document written by the Python `to_json` (lower-case type values) is rejected on `content_type` |
| RsContent.Content.constructor | tui_protocol/rust/src/content.rs:100-127 | the new object's fields are `NewRecord` of the arguments |
| RsContent.Content.TextContent | tui_protocol/rust/src/content.rs:131-141 | a fresh Text record with MIME type `text/plain` |
| RsContent.Content.PictureContent | tui_protocol/rust/src/content.rs:146-174 | a fresh Picture record with the file name and `PictureMime` |
| RsContent.Content.VideoContent | tui_protocol/rust/src/content.rs:179-207 | a fresh Video record with the file name and `VideoMime` |
| RsContent.Content.FileContent | tui_protocol/rust/src/content.rs:212-228 | a fresh File record with the file name and the supplied MIME type |
| RsContent.Content.AddTag | tui_protocol/rust/src/content.rs:240-245 | tags become `WithTag` of the old tags, the list stays duplicate-free, and no other field changes |
| RsContent.Content.RemoveTag | tui_protocol/rust/src/content.rs:247-250 | the tags become `RemoveAll` of the old tags: every occurrence is removed, the tag's count drops to zero, the other tags keep their order (`ContentData.RemoveAllAppend`), and no other field changes |
| RsContent.Content.Summary | tui_protocol/rust/src/content.rs:287-295 | the corrected summary (`RsContent.SummaryLine`) of the current record. It equals the as-written line whenever that does not panic, and starts with `[Type] title - ` |
| RsContent.Content.ToJsonDocument | tui_protocol/rust/src/content.rs:252-262 | within the integer ranges, the document decodes back to the current fields |
| Mining.Target | tui_protocol/python/rootlessnet/blockchain.py:61 | the target is `difficulty` zeros (none for a negative difficulty) |
| Mining.StopNonce | tui_protocol/python/rootlessnet/blockchain.py:61-68 | mining stops after the start at a nonce that meets the target or that passes one million, and never beyond 1000001 when started below it |
| Mining.StopNonceIsFirst | tui_protocol/python/rootlessnet/blockchain.py:61-68 | no nonce between the start and the stopping nonce meets the target |
| Mining.NoDifficultyAlwaysMeets | tui_protocol/python/rootlessnet/blockchain.py:61-62 | with difficulty 0 or less, every hash meets the target |
| Mining.MeetsWeaker | tui_protocol/python/rootlessnet/blockchain.py:61-62 | a hash meeting a difficulty also meets every lower one |
| Ledger.ZeroHash | tui_protocol/python/rootlessnet/blockchain.py:129 | the genesis previous hash is 64 zeros |
| Ledger.FirstWithHash | tui_protocol/python/rootlessnet/blockchain.py:176-181 | the first position whose block has the hash, or none when no block has it |
| Ledger.ByAuthor | tui_protocol/python/rootlessnet/blockchain.py:183-185 | exactly the blocks of the chain written by the author |
| Ledger.ByAuthorAppend | tui_protocol/python/rootlessnet/blockchain.py:183-185 | filtering keeps chain order: appending a block appends it to the result iff it has that author |
| Ledger.ByAuthorAll | tui_protocol/python/rootlessnet/blockchain.py:183-185 | a chain written wholly by one author is returned whole |
| PyLedger.CalculateHashShape | tui_protocol/python/rootlessnet/blockchain.py:47-57 | the block hash is 64 hex digits and does not depend on the stored hash field |
| PyLedger.BlockToJson | tui_protocol/python/rootlessnet/blockchain.py:70-81 | the block document is an object whose `content` is the content's own document |
| PyLedger.ChainToJson | tui_protocol/python/rootlessnet/blockchain.py:191-197 | the chain document has exactly `chain` and `difficulty`. `chain` holds one block document per block, in order |
| PyLedger.HashInputAmbiguous | tui_protocol/python/rootlessnet/blockchain.py:49-56 | the fields are concatenated without separators, so index 1 with timestamp 23 hashes like index 12 with timestamp 3 |
| PyLedger.Mined | tui_protocol/python/rootlessnet/blockchain.py:59-68 | mining changes at most the nonce and the hash. A changed block carries its correct hash and meets the target unless the nonce passed one million; difficulty 0 or less changes nothing |
| PyLedger.MinedIsFirst | tui_protocol/python/rootlessnet/blockchain.py:59-68 | no skipped nonce meets the target |
| PyLedger.MinedHashCorrect | tui_protocol/python/rootlessnet/blockchain.py:59-68 | mining keeps a correct stored hash correct |
| PyLedger.NewBlock | tui_protocol/python/rootlessnet/blockchain.py:28-45 | a new block has nonce 0, the given fields and its correct hash |
| PyLedger.Appended | tui_protocol/python/rootlessnet/blockchain.py:138-152 | the added block follows the last one by index and previous hash (index 0 and zero hash on an empty chain). It carries its correct hash |
| PyLedger.LinkedAppendValid | tui_protocol/python/rootlessnet/blockchain.py:154-168 | appending a correctly hashed block linked to the last one keeps a chain valid |
| PyLedger.AppendKeepsValid | tui_protocol/python/rootlessnet/blockchain.py:138-168 | `add_block` keeps a valid chain valid |
| PyLedger.ValidPrefixStep | tui_protocol/python/rootlessnet/blockchain.py:156-166 | one loop step of `is_valid` extends validity of the prefix by one block |
| PyLedger.BrokenLink | tui_protocol/python/rootlessnet/blockchain.py:156-166 | a wrong hash or a broken link at any later position makes the chain invalid |
| PyLedger.SingleBlockValid | tui_protocol/python/rootlessnet/blockchain.py:154-168 | a one-block chain is valid whatever the block holds, since the genesis block is never checked |
| PyLedger.TamperedContentDetected | tui_protocol/python/rootlessnet/blockchain.py:159-162 | replacing the content of a non-genesis block is detected whenever it changes the block's hash |
| PyLedger.StoredHashReplacedDetected | tui_protocol/python/rootlessnet/blockchain.py:159-166 | changing the stored hash of a non-genesis block is detected |
| PyLedger.RehashedBlockDetected | tui_protocol/python/rootlessnet/blockchain.py:164-166 | replacing any block except the last by one with another hash breaks the next link |
| PyLedger.Genesis | tui_protocol/python/rootlessnet/blockchain.py:117-132 | the genesis block: index 0, nonce 0, zero previous hash, author SYSTEM, the genesis text, and its correct hash |
| PyLedger.BlockFromJson | tui_protocol/python/rootlessnet/blockchain.py:83-95 | a decoded block takes its content, hash and nonce from the document's fields |
| PyLedger.BlockFromFields | tui_protocol/python/rootlessnet/blockchain.py:83-95 | any object with the seven block fields decodes to that block |
| PyLedger.BlockJsonRoundTrip | tui_protocol/python/rootlessnet/blockchain.py:70-95 | `Block.from_json(to_json(b))` gives back `b` |
| PyLedger.BlocksFromJson | tui_protocol/python/rootlessnet/blockchain.py:199-204 | a decoded chain has one block per item, each the decoding of its item |
| PyLedger.BlocksRoundTrip | tui_protocol/python/rootlessnet/blockchain.py:191-204 | decoding the encoded blocks gives back the blocks |
| PyLedger.ChainJsonRoundTrip | tui_protocol/python/rootlessnet/blockchain.py:191-204 | the chain document decodes to the same blocks and difficulty |
| PyLedger.Block.New | tui_protocol/python/rootlessnet/blockchain.py:28-45 | the object holds `NewBlock` of the arguments and refers to the given content object |
| PyLedger.Block.Mine | tui_protocol/python/rootlessnet/blockchain.py:59-68 | the loop leaves the block equal to `Mined` of its old value |
| PyLedger.Blockchain.constructor | tui_protocol/python/rootlessnet/blockchain.py:117-132 | an empty list receives the genesis block; a non-empty list is kept |
| PyLedger.Blockchain.GetLatestBlock | tui_protocol/python/rootlessnet/blockchain.py:134-136 | the last block, or none exactly on an empty chain |
| PyLedger.Blockchain.AddBlock | tui_protocol/python/rootlessnet/blockchain.py:138-152 | the chain grows by exactly the `Appended` block, which is returned and refers to the given content |
| PyLedger.Blockchain.IsValid | tui_protocol/python/rootlessnet/blockchain.py:154-168 | the loop answers `ChainValid` of the chain |
| PyLedger.Blockchain.GetBlock | tui_protocol/python/rootlessnet/blockchain.py:170-174 | the block at a position in range, and none outside it |
| PyLedger.Blockchain.GetBlockByHash | tui_protocol/python/rootlessnet/blockchain.py:176-181 | the loop finds the first block with that hash, or none |
| PyLedger.Blockchain.GetBlocksByAuthor | tui_protocol/python/rootlessnet/blockchain.py:183-185 | exactly the author's blocks, in chain order (`Ledger.ByAuthor`, ordered by `Ledger.ByAuthorAppend`) |
| PyLedger.Blockchain.Len | tui_protocol/python/rootlessnet/blockchain.py:187-189 | the number of blocks |
| PyLedger.Blockchain.ToJson | tui_protocol/python/rootlessnet/blockchain.py:191-197 | the document decodes to the current blocks and difficulty |
| PyLedger.Blockchain.FromJson | tui_protocol/python/rootlessnet/blockchain.py:199-204 | fails iff the document does not decode. Otherwise it holds the decoded blocks, with genesis added to an empty list, and the decoded difficulty |
| RsLedger.CalculateHashShape | tui_protocol/rust/src/blockchain.rs:69-84 | the block hash is 64 hex digits and does not depend on the stored hash field |
| RsLedger.NewBlock | tui_protocol/rust/src/blockchain.rs:48-67 | a new block has nonce 0, the given fields and its correct hash |
| RsLedger.Mined | tui_protocol/rust/src/blockchain.rs:86-99 | mining changes at most the nonce and the hash. A changed block carries its correct hash and meets the target unless the nonce passed one million; difficulty 0 changes nothing |
| RsLedger.MinedIsFirst | tui_protocol/rust/src/blockchain.rs:86-99 | no skipped nonce meets the target |
| RsLedger.Mine | tui_protocol/rust/src/blockchain.rs:86-99 | the loop returns `Mined` of the block and `Ok(())` |
| RsLedger.Appended | tui_protocol/rust/src/blockchain.rs:174-189 | the added block follows the last one by index and previous hash and carries its correct hash |
| RsLedger.LinkedAppendValid | tui_protocol/rust/src/blockchain.rs:191-208 | appending a correctly hashed block linked to the last one keeps a chain valid |
| RsLedger.AppendKeepsValid | tui_protocol/rust/src/blockchain.rs:174-208 | `add_block` keeps a valid chain valid |
| RsLedger.ValidPrefixStep | tui_protocol/rust/src/blockchain.rs:193-205 | one loop step of `is_valid` extends validity of the prefix by one block |
| RsLedger.StoredHashReplacedDetected | tui_protocol/rust/src/blockchain.rs:193-205 | changing the stored hash of a non-genesis block is detected |
| RsLedger.AddAll | tui_protocol/rust/src/blockchain.rs:174-189 | a sequence of `add_block` calls adds one block per call and keeps the existing blocks |
| RsLedger.AddAllValid | tui_protocol/rust/src/blockchain.rs:174-208 | any number of `add_block` calls keep a valid chain valid |
| RsLedger.Genesis | tui_protocol/rust/src/blockchain.rs:144-167 | the genesis block: index 0, nonce 0, zero previous hash, author SYSTEM, the genesis text, and its correct hash |
| RsLedger.NewChainGrowsValid | tui_protocol/rust/src/blockchain.rs:280-320 | a new chain with one or five added blocks has two or six blocks and is valid |
| RsLedger.Blockchain.constructor | tui_protocol/rust/src/blockchain.rs:144-167 | the chain is the genesis block alone, the difficulty is 2, and the chain is valid |
| RsLedger.Blockchain.GetLatestBlock | tui_protocol/rust/src/blockchain.rs:169-172 | the last block, or none exactly on an empty chain |
| RsLedger.Blockchain.AddBlock | tui_protocol/rust/src/blockchain.rs:174-189 | on a non-empty chain, the `Appended` block is pushed and returned. An empty chain, where the source panics, is left unchanged |
| RsLedger.Blockchain.IsValid | tui_protocol/rust/src/blockchain.rs:191-208 | the loop answers `ChainValid` of the chain |
| RsLedger.Blockchain.GetBlock | tui_protocol/rust/src/blockchain.rs:210-213 | the block at a position in range, and none outside it |
| RsLedger.Blockchain.GetBlockByHash | tui_protocol/rust/src/blockchain.rs:215-218 | a block with that hash from the chain, or none iff no block has it |
| RsLedger.Blockchain.GetBlocksByAuthor | tui_protocol/rust/src/blockchain.rs:220-226 | exactly the author's blocks, in chain order (`Ledger.ByAuthor`, ordered by `Ledger.ByAuthorAppend`) |
| RsLedger.Blockchain.Len | tui_protocol/rust/src/blockchain.rs:228-231 | the number of blocks |
| Keys.PickInAlphabet | tui_protocol/python/rootlessnet/identity.py:136-137 | every random character comes from the alphabet of letters, digits and `$`, `-`, `#` |
| Keys.Picks | tui_protocol/python/rootlessnet/identity.py:141-143 | `n` characters, the `j`-th picked by draw `from + j` |
| Keys.PicksNext | tui_protocol/python/rootlessnet/identity.py:141-143 | one more loop step appends the next pick |
| Keys.AppendPicks | tui_protocol/python/rootlessnet/identity.py:141-143 | the loop appends exactly `Picks` of the following draws |
| Keys.ExtraCount | tui_protocol/python/rootlessnet/identity.py:140 | the number of extra characters is between 5 and 19 |
| Keys.PicksInAlphabet | tui_protocol/python/rootlessnet/identity.py:135-143 | every picked character is in the alphabet |
| Keys.KeyStringShape | tui_protocol/python/rootlessnet/identity.py:129-145 | the key string starts with the hex of the key and is padded to at least 100 characters. It gets 5 to 19 more, all from the alphabet |
| Keys.KeyStringOfVerifyingKey | tui_protocol/python/rootlessnet/identity.py:129-145 | for a 32-byte key the string has 105 to 119 characters, all from the alphabet |
| Keys.HexDigitInAlphabet | tui_protocol/python/rootlessnet/identity.py:132 | lower-case hex digits are in the alphabet |
| Keys.MnemonicWords | tui_protocol/python/rootlessnet/identity.py:148-154 | 100 words, the `i`-th chosen by draw `i` |
| Keys.MnemonicSplits | tui_protocol/rust/src/identity.rs:220-225 | when no word contains a space, the mnemonic splits back into 100 words of the list |
| PyIdentity.GeneratePublicKeyString | tui_protocol/python/rootlessnet/identity.py:129-145 | the two loops build exactly `KeyString` of the hex key and the draws |
| PyIdentity.GenerateMnemonicKey | tui_protocol/python/rootlessnet/identity.py:148-154 | the loop builds the 100 drawn words joined by spaces |
| PyIdentity.New | tui_protocol/python/rootlessnet/identity.py:39-58 | the identity holds the seed, its Ed25519 public key, the key string, the mnemonic and the clock reading |
| PyIdentity.Sign | tui_protocol/python/rootlessnet/identity.py:60-63 | fails iff the signing key is not 32 bytes; otherwise it is the Ed25519 signature |
| PyIdentity.VerifySignature | tui_protocol/python/rootlessnet/identity.py:162-169 | true iff the key has 32 bytes, the signature has 64 bytes and Ed25519 accepts the signature. Any other case is `False`, not an exception |
| PyIdentity.SignedDataVerifies | tui_protocol/python/rootlessnet/identity.py:162-169 | a signature made by an identity verifies under its verifying key |
| PyIdentity.WrongLengthRejected | tui_protocol/python/rootlessnet/identity.py:162-169 | a key or signature of the wrong length is rejected |
| PyIdentity.GetHex | tui_protocol/python/rootlessnet/identity.py:82-83 | a decoded field was a hex string that decodes to the result |
| PyIdentity.FromJson | tui_protocol/python/rootlessnet/identity.py:75-85 | a decoded identity's key bytes are the hex decodings of the two key fields |
| PyIdentity.Lift | tui_protocol/python/rootlessnet/identity.py:75-85 | a document error is carried through unchanged in kind |
| PyIdentity.JsonRoundTrip | tui_protocol/python/rootlessnet/identity.py:65-85 | `from_json(to_json(id))` gives back `id` |
| PyIdentity.ToJson | tui_protocol/python/rootlessnet/identity.py:65-73 | the document is an object with exactly the five fields of the identity |
| PyIdentity.ExportEncrypted | tui_protocol/python/rootlessnet/identity.py:92-106 | the backup is hex of at least 28 bytes that starts with the 16-byte salt, then the 12-byte nonce |
| PyIdentity.ImportEncrypted | tui_protocol/python/rootlessnet/identity.py:108-126 | success needs a hex blob of at least 28 bytes |
| PyIdentity.BackupFraming | tui_protocol/python/rootlessnet/identity.py:105-116 | salt, nonce and ciphertext are recovered from their concatenation at offsets 16 and 28 |
| PyIdentity.BackupRoundTrip | tui_protocol/python/rootlessnet/identity.py:92-126 | importing an export with the same password gives back the identity |
| PyIdentity.ShortBackupRejected | tui_protocol/python/rootlessnet/identity.py:108-126 | a blob shorter than salt plus nonce fails on the nonce length |
| RsIdentity.GeneratePublicKeyString | tui_protocol/rust/src/identity.rs:156-176 | the two loops build exactly `KeyString` of the hex key and the draws |
| RsIdentity.GenerateMnemonicKey | tui_protocol/rust/src/identity.rs:179-188 | when no word contains a space, the mnemonic splits into 100 words of the list |
| RsIdentity.New | tui_protocol/rust/src/identity.rs:41-65 | the identity holds the seed, its public key, the key string, the mnemonic and the clock reading |
| RsIdentity.Sign | tui_protocol/rust/src/identity.rs:68-75 | fails iff the signing key is not 32 bytes; otherwise it is the Ed25519 signature |
| RsIdentity.VerifySignature | tui_protocol/rust/src/identity.rs:198-213 | errors are checked in order: key length, then signature length, then invalid point. Otherwise the result is the Ed25519 verdict |
| RsIdentity.SignedDataVerifies | tui_protocol/rust/src/identity.rs:227-241 | a signature made by an identity verifies as `Ok(true)` |
| RsIdentity.ByteArray | tui_protocol/rust/src/identity.rs:16-35 | byte vectors are serialised as arrays of their integer values |
| RsIdentity.BytesOf | tui_protocol/rust/src/identity.rs:16-35 | a JSON array reads as bytes iff every item is an integer below 256 |
| RsIdentity.GetBytes | tui_protocol/rust/src/identity.rs:16-35 | a missing byte field is a missing-key error |
| RsIdentity.BytesRoundTrip | tui_protocol/rust/src/identity.rs:16-35 | serialised bytes read back as the same bytes |
| RsIdentity.FromJson | tui_protocol/rust/src/identity.rs:16-35 | a decoded identity has an `i64` creation time, and the document has every serialised field |
| RsIdentity.JsonRoundTrip | tui_protocol/rust/src/identity.rs:16-35 | for an `i64` time, decoding the serialised identity gives it back |
| RsIdentity.ToJson | tui_protocol/rust/src/identity.rs:78-81 | the document is an object with exactly the five serialised fields |
| RsIdentity.ExportEncrypted | tui_protocol/rust/src/identity.rs:95-117 | with the hex and AEAD laws, the backup decodes and opens under the password's key and the zero nonce to the identity's JSON text |
| RsIdentity.ZeroNonce | tui_protocol/rust/src/identity.rs:112 | the backup nonce is twelve zero bytes |
| RsIdentity.ImportEncrypted | tui_protocol/rust/src/identity.rs:120-146 | non-hex input fails with a hex error. Success needs the blob to open under the password's key and the zero nonce |
| RsIdentity.BackupRoundTrip | tui_protocol/rust/src/identity.rs:95-146 | importing an export with the same password gives back the identity |
| TuiCore.DidShape | rootlessnet-tui/python/rootlessnet_tui/core.py:25-28 | a DID is `did:rootless:key:` followed by 32 hex digits |
| TuiCore.CidShape | rootlessnet-tui/python/rootlessnet_tui/core.py:31-34 | a CID is `bafk` followed by 32 hex digits |
| TuiCore.CreateShape | rootlessnet-tui/python/rootlessnet_tui/core.py:64-75 | the private key is the hex of the secret and the public key the hex of its SHA-256; both are 64 characters, and the DID is derived from the public key |
| TuiCore.Sign | rootlessnet-tui/python/rootlessnet_tui/core.py:77-84 | fails iff the private key is not hex; otherwise the HMAC-SHA256 under it |
| TuiCore.VerifySignature | rootlessnet-tui/python/rootlessnet_tui/core.py:86-89 | fails exactly when signing fails; otherwise true iff the signature equals the HMAC |
| TuiCore.SignVerifies | rootlessnet-tui/python/rootlessnet_tui/core.py:77-89 | an HMAC signature is 32 bytes and verifies; any other bytes do not |
| TuiCore.CreatedCanSign | rootlessnet-tui/python/rootlessnet_tui/core.py:64-84 | a created identity signs with its secret |
| TuiCore.FromDocument | rootlessnet-tui/python/rootlessnet_tui/core.py:101-111 | the DID comes from the document. A missing name is `None`; a missing creation time is the clock reading |
| TuiCore.ImportFromJson | rootlessnet-tui/python/rootlessnet_tui/core.py:101-111 | unparseable text is a JSON error |
| TuiCore.ExportImportRoundTrip | rootlessnet-tui/python/rootlessnet_tui/core.py:91-111 | importing an exported identity gives it back |
| TuiCore.Export | rootlessnet-tui/python/rootlessnet_tui/core.py:91-99 | the export has exactly `did`, `name`, `public_key`, `private_key` and `created_at`. `name` is `null` iff the identity has no name |
| TuiCore.MissingNameImportsNone | rootlessnet-tui/python/rootlessnet_tui/core.py:101-111 | a document without `name` imports with no name |
| TuiCore.CreateContent | rootlessnet-tui/python/rootlessnet_tui/core.py:130-151 | fails iff the private key is not hex. The CID hashes `did:body:created_at`; the author fields come from the identity |
| TuiCore.CreatedSignature | rootlessnet-tui/python/rootlessnet_tui/core.py:142-151 | the stored signature is 64 hex digits decoding to the identity's HMAC of the payload |
| TuiCore.VerifyContent | rootlessnet-tui/python/rootlessnet_tui/core.py:153-175 | without a private key only the signature length is checked. A non-hex private key is an error; a non-hex signature is never accepted |
| TuiCore.CreatedContentVerifies | rootlessnet-tui/python/rootlessnet_tui/core.py:130-175 | created content verifies |
| TuiCore.TamperedBodyFails | rootlessnet-tui/python/rootlessnet_tui/core.py:153-175 | content whose body was replaced does not verify, unless the HMACs of the two payloads coincide |
| TuiCore.ExportContent | rootlessnet-tui/python/rootlessnet_tui/core.py:177-186 | the exported document holds no private key |
| TuiMessaging.DeriveKeysSeparation | rootlessnet-tui/python/rootlessnet_tui/core.py:209-220 | the keys depend only on the concatenation of the two public keys. The encryption and authentication inputs differ |
| TuiMessaging.DeriveKeys | rootlessnet-tui/python/rootlessnet_tui/core.py:209-220 | with the hash laws, both keys are 32-byte digests |
| TuiMessaging.MessageId | rootlessnet-tui/python/rootlessnet_tui/core.py:254 | the id is a prefix of the hex SHA-256 of `message:timestamp`; with the laws it is 16 hex digits |
| TuiMessaging.KeyStreamFrom | rootlessnet-tui/python/rootlessnet_tui/core.py:242-247 | the keystream loop extends what it has already built and covers at least the message |
| TuiMessaging.KeyStream | rootlessnet-tui/python/rootlessnet_tui/core.py:242-247 | a successful keystream is at least as long as the message |
| TuiMessaging.KeyStreamFromBlocks | rootlessnet-tui/python/rootlessnet_tui/core.py:242-247 | from any counter the loop ends with consecutive blocks, the fewest that cover the message |
| TuiMessaging.KeyStreamIsBlocks | rootlessnet-tui/python/rootlessnet_tui/core.py:242-247 | the keystream is the first `c` counter blocks, for the least `c` with `32c` at least the message length |
| TuiMessaging.KeyStreamFromTotal | rootlessnet-tui/python/rootlessnet_tui/core.py:245 | from any counter the loop succeeds iff the message fits below the 4-byte counter limit |
| TuiMessaging.KeyStreamTotal | rootlessnet-tui/python/rootlessnet_tui/core.py:245 | a keystream exists iff the message is at most `32 * 2^32` bytes, past which `to_bytes(4)` overflows |
| TuiMessaging.BuildKeyStream | rootlessnet-tui/python/rootlessnet_tui/core.py:240-247 | the loop returns exactly `KeyStream`, with the overflow error where the counter would pass four bytes |
| TuiMessaging.Crypt | rootlessnet-tui/python/rootlessnet_tui/core.py:249 | each output byte is the input byte XOR the keystream byte at the same position |
| TuiMessaging.CryptInvolution | rootlessnet-tui/python/rootlessnet_tui/core.py:296-303 | XOR with the same keystream decrypts what it encrypted |
| TuiMessaging.Sealed | rootlessnet-tui/python/rootlessnet_tui/core.py:232-264 | sealing succeeds iff the keystream does. The document holds a hex ciphertext of twice the message's byte length |
| TuiMessaging.Encrypt | rootlessnet-tui/python/rootlessnet_tui/core.py:222-264 | the method returns the dumped `Sealed` document, failing exactly when it fails |
| TuiMessaging.HexField | rootlessnet-tui/python/rootlessnet_tui/core.py:286-288 | a read field was a hex string decoding to the result |
| TuiMessaging.Authenticate | rootlessnet-tui/python/rootlessnet_tui/core.py:276-293 | a different sender key fails. Success means a hex MAC equal to the HMAC of nonce plus ciphertext under the derived key |
| TuiMessaging.OpenedDocument | rootlessnet-tui/python/rootlessnet_tui/core.py:276-305 | an authentication failure is passed on, so nothing is decrypted before the MAC check |
| TuiMessaging.Opened | rootlessnet-tui/python/rootlessnet_tui/core.py:266-305 | unparseable text is a JSON error |
| TuiMessaging.Decrypt | rootlessnet-tui/python/rootlessnet_tui/core.py:266-305 | the method returns exactly `Opened`, with its keystream loop |
| TuiMessaging.SealedDocumentAuthenticates | rootlessnet-tui/python/rootlessnet_tui/core.py:276-293 | a sealed document passes the sender check and the MAC check with its own nonce and ciphertext |
| TuiMessaging.EncryptDecryptRoundTrip | rootlessnet-tui/python/rootlessnet_tui/core.py:222-305 | the recipient decrypts a sealed message to the original text |
| TuiMessaging.TamperedTagRejected | rootlessnet-tui/python/rootlessnet_tui/core.py:290-293 | a MAC that differs from the expected one is rejected |
| TuiMessaging.IgnoresTimestampAndId | rootlessnet-tui/python/rootlessnet_tui/core.py:276-305 | changing `timestamp` or `message_id` does not change the decryption |
| SignedContent.Head16 | rootlessnet-tui/rust/src/identity.rs:36-37 | the first 16 bytes of the digest |
| SignedContent.Sign | rootlessnet-tui/rust/src/identity.rs:54-64 | fails iff the private key is not hex of 32 bytes; otherwise the Ed25519 signature |
| SignedContent.NewIdentitySigns | rootlessnet-tui/rust/src/identity.rs:28-64 | a new identity signs with its seed |
| SignedContent.NewIdentity | rootlessnet-tui/rust/src/identity.rs:28-51 | the DID starts with `did:rootless:key:`, the name and time are the ones given, and the private key is 64 hex characters |
| SignedContent.PayloadDeterminesBody | rootlessnet-tui/rust/src/content.rs:76-79 | with the other fields fixed, the signed payload determines the body |
| SignedContent.New | rootlessnet-tui/rust/src/content.rs:47-71 | fails iff the identity's key is bad. The CID starts with `bafk`, the fields come from the identity, body and clock, and the signature decodes to the identity's signature of the payload |
| SignedContent.Verify | rootlessnet-tui/rust/src/content.rs:74-95 | errors in order: public-key hex, then signature hex, then key length. Success is always `Ok(true)`, and holds iff the key is a valid point, the signature 64 bytes and valid for the payload |
| SignedContent.FreshContentVerifies | rootlessnet-tui/rust/src/content.rs:179-185 | content created by a new identity verifies |
| SignedContent.TamperedBodyRejected | rootlessnet-tui/rust/src/content.rs:187-196 | a different body fails with a verification error, given that the signature fits only its own payload (`SignedContent.FitsOnly`); the altered payload differs by `SignedContent.PayloadDeterminesBody` |

## Findings

| source | as written | input that shows it | evidently intended | confidence | as-written member | corrected member |
|---|---|---|---|---|---|---|
| tui_protocol/rust/src/content.rs:288-289 | `&self.data[..50]` slices at byte 50 when the data is over 50 bytes | data `"a"` × 49 followed by `é` (51 bytes): byte 50 falls inside `é`, so slicing panics | a preview of at most 50 bytes, cut at a character boundary | not executed | RsContent.SummaryAsWritten (RsContent.SummaryPanicsOnSplitCharacter) | RsContent.SummaryLine (RsContent.SummaryPreview) |

## Left out

- Both `main.py`, the terminal client's `app.py`, `messaging.rs`, both `crypto.rs`, both `lib.rs` and the package `__init__` files: these are user interfaces, bindings or primitive wrappers outside this model.
- Everything in `rootlessnet-tui/rust/src/identity.rs` except `Identity::new` and `Identity::sign`: only what content signing relies on is modelled.
- The implementations of SHA-256, BLAKE2b, BLAKE3, HMAC, Ed25519, scrypt, ChaCha20-Poly1305, hex, base58, UTF-8 and JSON text: these are suite parameters, and their behaviour enters only through named law predicates.
- The exact JSON text (indentation, key order): documents are modelled as JSON values, and text only through the suite's dump and parse.
- File reading and base64 encoding in the picture, video and file constructors: the encoded data is a parameter.
- `info()` and `public_info()`, which only format text (including date formatting).
- The Rust-backend branches of `core.py`: only the pure-Python fallback is modelled.
- `Content::export` in `rootlessnet-tui/rust/src/content.rs`, which is plain serialisation.
- The Rust `Blockchain::to_json` and `from_json`, which are plain serde calls.
- The serde error messages, and the order in which serde reports errors.
- The 4000-word list loaded from `wordlist` (it is not the BIP-39 list): it is a parameter of the mnemonic functions.
- PyLedger.Blockchain.IsValid: the Python chain stores value snapshots of its blocks. It does not capture aliasing: a `Content` object mutated after `add_block` would change the source's recomputed hash but not the model's.
- PyLedger.Blockchain.AddBlock: the returned `Block` is a fresh object holding the same values as the stored snapshot. In the source it is the very object in `chain`, so mutating it would change the chain. The model does not capture that aliasing.
- PyLedger.BlockFromJson: Python's `from_json` stores whatever value a field holds. The model reads typed fields and returns a type error where Python would keep an ill-typed value.
- PyContent.FromJson: as above, a field of the wrong type is an error in the model and is stored unchecked by the source.
- PyIdentity.FromJson: `public_key`, `private_key` and `created_at` must be a string, a string and an integer in the model. The source stores whatever values those fields hold. Only the two hex fields are checked by the source too, through `bytes.fromhex`.
- TuiCore.FromDocument: `did`, `public_key` and `private_key` must be strings, `name` a string or `null`, and `created_at` an integer in the model. The source stores any values.
- PyLedger.ChainFromJson: `difficulty` must be an integer. The source accepts any value, such as the string `"2"`, which only fails later when `"0" * difficulty` is evaluated.
- PyLedger.Blockchain.FromJson: inherits the typed `difficulty` and the typed block fields of `PyLedger.ChainFromJson` and `PyLedger.BlockFromJson`.
- RsContent.Content.Summary: returns the corrected line (`RsContent.SummaryLine`). Where the source panics, slicing inside a multi-byte character, the model gives a preview cut at the previous character boundary. The as-written behaviour is `RsContent.SummaryAsWritten`; see Findings.
- RsLedger.Blockchain.AddBlock: on an empty chain the source panics at `unwrap()`; the model returns `None` and leaves the chain unchanged. A constructed chain is never empty.
- RsLedger.Mined: the `u64` nonce and index are unbounded integers. Mining stops past one million, far below overflow; the index is not wrapped.
- RsContent.NewRecord: `created_at` is an unbounded integer, and `to_json`/`from_json` restrict it to the `i64` range (`RsContent.InRange`).
- RsIdentity.ExportEncrypted: the ChaCha20-Poly1305 seal and the serialisation are treated as infallible, so export always succeeds.
- TuiCore.Create: the 32 random bytes are a parameter. Identities created by the Rust backend carry an empty private key; for them only the length check of `Content.verify` is modelled.
- TuiCore.TamperedBodyFails: HMAC collisions are not excluded by any law, so the lemma assumes the two HMACs differ.
- SignedContent.TamperedBodyRejected: no law says a signature fits only one message, so the lemma assumes it of the signature it checks (`SignedContent.FitsOnly`).
- Crypto.Ascii: the ASCII encoding of the two key-derivation labels is stated only by its length.
