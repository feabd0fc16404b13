/** What the Python and the Rust content modules of the protocol package share: the four
    content types, the record of a content item's fields, the content-ID formula and the
    operations on tag lists. */
module ContentData {
  import opened Outcomes
  import opened Text
  import opened Crypto
  import opened Seqs

  datatype ContentType = Text | Picture | Video | File

  /** The fields of a content item, in declaration order. */
  datatype ContentRecord = ContentRecord(
    id: string,
    contentType: ContentType,
    title: string,
    description: string,
    data: string,
    filename: Option<string>,
    mimeType: Option<string>,
    size: int,
    createdAt: int,
    tags: seq<string>
  )

  /** The content ID: the hex SHA-256 of the data's UTF-8 bytes followed by the decimal
      timestamp's bytes (two `update` calls on one hasher). */
  function ContentId(s: Suite, data: string, timestamp: int): (id: string)
    ensures HashLaws(s) && HexLaws(s) ==> |id| == 64
  {
    s.hex(s.sha256(s.utf8(data) + s.utf8(IntToString(timestamp))))
  }

  lemma ContentIdShape(s: Suite, data: string, timestamp: int)
    requires HashLaws(s) && HexLaws(s)
    ensures |ContentId(s, data, timestamp)| == 64
    ensures forall i :: 0 <= i < 64 ==> IsHexDigit(ContentId(s, data, timestamp)[i])
  {
    var digest := s.sha256(s.utf8(data) + s.utf8(IntToString(timestamp)));
    assert |digest| == 32;
    assert |s.hex(digest)| == 64;
  }

  predicate NoDuplicates(tags: seq<string>) {
    forall i, j :: 0 <= i < j < |tags| ==> tags[i] != tags[j]
  }

  /** `add_tag` on a value: append unless already present. */
  function WithTag(tags: seq<string>, tag: string): (r: seq<string>)
    ensures tag in r
    ensures tag in tags ==> r == tags
    ensures tag !in tags ==> r == tags + [tag]
  {
    if tag in tags then tags else tags + [tag]
  }

  /** Adding a tag twice is the same as adding it once. */
  lemma WithTagIdempotent(tags: seq<string>, tag: string)
    ensures WithTag(WithTag(tags, tag), tag) == WithTag(tags, tag)
  {
  }

  /** A duplicate-free tag list stays duplicate-free under `WithTag`. */
  lemma WithTagNoDuplicates(tags: seq<string>, tag: string)
    requires NoDuplicates(tags)
    ensures NoDuplicates(WithTag(tags, tag))
  {
    var r := WithTag(tags, tag);
    if tag !in tags {
      forall i, j | 0 <= i < j < |r| ensures r[i] != r[j] {
        if j == |tags| {
          assert r[i] == tags[i];
        }
      }
    }
  }

  /** Position of the first occurrence of `tag`. */
  function FirstIndex(tags: seq<string>, tag: string): (i: nat)
    requires tag in tags
    ensures i < |tags| && tags[i] == tag
    ensures forall k :: 0 <= k < i ==> tags[k] != tag
  {
    if tags[0] == tag then 0 else 1 + FirstIndex(tags[1..], tag)
  }

  /** `list.remove` on a value: drop the first occurrence only. */
  function RemoveFirst(tags: seq<string>, tag: string): (r: seq<string>)
    ensures tag !in tags ==> r == tags
    ensures tag in tags ==> r == tags[..FirstIndex(tags, tag)] + tags[FirstIndex(tags, tag) + 1..]
  {
    if tags == [] then []
    else if tags[0] == tag then tags[1..]
    else
      var rest := RemoveFirst(tags[1..], tag);
      if tag in tags then DropInTail(tags, FirstIndex(tags, tag) - 1); [tags[0]] + rest
      else [tags[0]] + rest
  }

  /** Removing the first occurrence takes exactly one copy of the tag out of the list. */
  lemma RemoveFirstCount(tags: seq<string>, tag: string)
    ensures multiset(RemoveFirst(tags, tag)) == multiset(tags) - multiset{tag}
  {
    if tag in tags {
      DropCount(tags, FirstIndex(tags, tag));
    } else {
      assert multiset(tags)[tag] == 0;
    }
  }

  /** `retain(|t| t != tag)`: drop every occurrence, keep the rest in order. */
  function RemoveAll(tags: seq<string>, tag: string): (r: seq<string>)
    ensures tag !in r
    ensures forall x :: x in r <==> x in tags && x != tag
    ensures |r| <= |tags|
  {
    if tags == [] then []
    else if tags[0] == tag then RemoveAll(tags[1..], tag)
    else [tags[0]] + RemoveAll(tags[1..], tag)
  }

  /** Filtering distributes over an append, so the kept tags stay in their order. */
  lemma {:induction false} RemoveAllAppend(tags: seq<string>, x: string, tag: string)
    ensures RemoveAll(tags + [x], tag) == RemoveAll(tags, tag) + (if x == tag then [] else [x])
  {
    if tags != [] {
      assert (tags + [x])[1..] == tags[1..] + [x];
      RemoveAllAppend(tags[1..], x, tag);
    }
  }

  lemma {:induction false} RemoveAllCount(tags: seq<string>, tag: string)
    ensures multiset(RemoveAll(tags, tag)) == multiset(tags)[tag := 0]
  {
    if tags != [] {
      RemoveAllCount(tags[1..], tag);
      HeadCount(tags);
    }
  }

  /** On a duplicate-free list removing every occurrence and removing the first one agree:
      the two implementations differ only on lists that already hold a duplicate. */
  lemma {:induction false} RemoveAllIsRemoveFirst(tags: seq<string>, tag: string)
    requires NoDuplicates(tags)
    ensures RemoveAll(tags, tag) == RemoveFirst(tags, tag)
  {
    if tags != [] {
      assert NoDuplicates(tags[1..]) by {
        forall i, j | 0 <= i < j < |tags[1..]| ensures tags[1..][i] != tags[1..][j] {
          assert tags[1..][i] == tags[i + 1] && tags[1..][j] == tags[j + 1];
        }
      }
      RemoveAllIsRemoveFirst(tags[1..], tag);
      if tags[0] == tag {
        assert tag !in tags[1..] by {
          forall k | 0 <= k < |tags[1..]| ensures tags[1..][k] != tag {
            assert tags[1..][k] == tags[k + 1];
          }
        }
        assert RemoveAll(tags[1..], tag) == tags[1..];
      }
    }
  }

  /** The two differ on a list with a repeated tag. */
  lemma RemoveAllDiffersOnDuplicates()
    ensures RemoveAll(["a", "a"], "a") == []
    ensures RemoveFirst(["a", "a"], "a") == ["a"]
  {
    assert RemoveAll(["a", "a"][1..], "a") == [];
  }
}
