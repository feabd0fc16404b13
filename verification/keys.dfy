/** The text forms of a user identity's keys that both protocol packages generate: a
    public key string of at least 100 characters and a mnemonic of 100 words. Random
    numbers come in as a parameter `draws`: the value of the i-th call to the random
    number generator, of which a call for a number below `n` keeps `draws(i) % n`. */
module Keys {
  import opened Text
  import opened Crypto

  /** Characters allowed after the hex prefix of a public key (65 of them). */
  const PublicKeyChars: string := "ABCDEFGHIJKLMNOPQRSTUVWXYZ" + "abcdefghijklmnopqrstuvwxyz" + "0123456789$-#"

  const MinKeyLength := 100
  const WordCount := 100

  type Draws = nat -> nat

  predicate InAlphabet(c: char) {
    c in PublicKeyChars
  }

  /** The alphabet character picked by one draw. */
  function Pick(d: nat): (c: char)
  {
    PublicKeyChars[d % |PublicKeyChars|]
  }

  lemma PickInAlphabet(d: nat)
    ensures InAlphabet(Pick(d))
  {
    var i := d % |PublicKeyChars|;
    assert PublicKeyChars[i] in PublicKeyChars;
  }

  /** The characters picked by `n` consecutive draws starting at draw `from`. */
  function Picks(draws: Draws, from: nat, n: nat): (r: string)
    ensures |r| == n
    ensures forall j :: 0 <= j < n ==> r[j] == Pick(draws(from + j))
  {
    seq(n, j requires 0 <= j < n => Pick(draws(from + j)))
  }

  lemma PicksNext(draws: Draws, from: nat, n: nat)
    ensures Picks(draws, from, n + 1) == Picks(draws, from, n) + [Pick(draws(from + n))]
  {
  }

  /** The loop both generators end with: `n` more alphabet characters from the draws
      starting at `from`. */
  method AppendPicks(prefix: string, draws: Draws, from: nat, n: nat) returns (key: string)
    ensures key == prefix + Picks(draws, from, n)
  {
    key := prefix;
    for k := 0 to n
      invariant key == prefix + Picks(draws, from, k)
    {
      PicksNext(draws, from, k);
      key := key + [Pick(draws(from + k))];
    }
  }

  /** How many characters the first loop adds to a prefix of the given length. */
  function Padding(prefixLength: nat): nat
  {
    if prefixLength < MinKeyLength then MinKeyLength - prefixLength else 0
  }

  /** The number of further characters: a draw below 15, plus 5. */
  function ExtraCount(d: nat): (n: nat)
    ensures 5 <= n <= 19
  {
    d % 15 + 5
  }

  /** The public key string for a hex prefix: the padding uses draws `0 .. p - 1`, draw
      `p` picks the extra count, and the extra characters use the draws after it. */
  function KeyString(hex: string, draws: Draws): string
  {
    var p := Padding(|hex|);
    hex + Picks(draws, 0, p) + Picks(draws, p + 1, ExtraCount(draws(p)))
  }

  /** Every picked character is from the alphabet. */
  lemma PicksInAlphabet(draws: Draws, from: nat, n: nat)
    ensures forall j :: 0 <= j < n ==> InAlphabet(Picks(draws, from, n)[j])
  {
    forall j | 0 <= j < n ensures InAlphabet(Picks(draws, from, n)[j]) {
      PickInAlphabet(draws(from + j));
    }
  }

  /** A key string starts with the hex prefix, is padded to at least 100 characters,
      gets 5 to 19 more, and everything after the prefix is from the alphabet. */
  lemma KeyStringShape(hex: string, draws: Draws)
    ensures var k := KeyString(hex, draws);
            var base := if |hex| < MinKeyLength then MinKeyLength else |hex|;
            && k[..|hex|] == hex
            && base + 5 <= |k| <= base + 19
            && forall j :: |hex| <= j < |k| ==> InAlphabet(k[j])
  {
    var p := Padding(|hex|);
    var first := Picks(draws, 0, p);
    var extra := Picks(draws, p + 1, ExtraCount(draws(p)));
    var tail := first + extra;
    var k := hex + tail;
    assert k == KeyString(hex, draws);
    PicksInAlphabet(draws, 0, p);
    PicksInAlphabet(draws, p + 1, ExtraCount(draws(p)));
    assert forall t :: 0 <= t < |tail| ==> InAlphabet(tail[t]) by {
      forall t | 0 <= t < |tail| ensures InAlphabet(tail[t]) {
        if t < p { assert tail[t] == first[t]; } else { assert tail[t] == extra[t - p]; }
      }
    }
    forall j | |hex| <= j < |k| ensures InAlphabet(k[j]) {
      assert k[j] == tail[j - |hex|];
    }
    assert k[..|hex|] == hex;
  }

  /** For a 32-byte verifying key the string has 105 to 119 characters, all from the
      alphabet. */
  lemma KeyStringOfVerifyingKey(s: Suite, vk: Bytes, draws: Draws)
    requires HexLaws(s) && |vk| == 32
    ensures var k := KeyString(s.hex(vk), draws);
            && 105 <= |k| <= 119
            && forall j :: 0 <= j < |k| ==> InAlphabet(k[j])
  {
    var hex := s.hex(vk);
    var k := KeyString(hex, draws);
    KeyStringShape(hex, draws);
    forall j | 0 <= j < |k| ensures InAlphabet(k[j]) {
      if j < |hex| {
        assert k[j] == hex[j];
        HexDigitInAlphabet(hex[j]);
      }
    }
  }

  /** Lower-case hex digits are in the alphabet. */
  lemma HexDigitInAlphabet(c: char)
    requires IsHexDigit(c)
    ensures InAlphabet(c)
  {
    var i := if '0' <= c <= '9' then 52 + (c as int - '0' as int) else 26 + (c as int - 'a' as int);
    assert PublicKeyChars[i] == c;
  }

  /** The 100 words drawn from the word list, in drawing order. */
  function MnemonicWords(wordlist: seq<string>, draws: Draws): (words: seq<string>)
    requires |wordlist| > 0
    ensures |words| == WordCount
    ensures forall i :: 0 <= i < WordCount ==> words[i] == wordlist[draws(i) % |wordlist|]
  {
    seq(WordCount, i requires 0 <= i < WordCount => wordlist[draws(i) % |wordlist|])
  }

  /** A mnemonic splits back on single spaces into its 100 words, each from the word
      list, when no word of the list contains a space. */
  lemma MnemonicSplits(wordlist: seq<string>, draws: Draws)
    requires |wordlist| > 0
    ensures (forall w :: w in wordlist ==> ' ' !in w) ==>
            var words := Split(Join(MnemonicWords(wordlist, draws), ' '), ' ');
            |words| == WordCount && forall i :: 0 <= i < WordCount ==> words[i] in wordlist
  {
    if forall w :: w in wordlist ==> ' ' !in w {
      var words := MnemonicWords(wordlist, draws);
      forall k | 0 <= k < |words| ensures ' ' !in words[k] {
        assert words[k] in wordlist;
      }
      SplitJoin(words, ' ');
    }
  }
}
