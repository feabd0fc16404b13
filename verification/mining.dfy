/** The proof-of-work loop both blockchain modules run: raise the nonce and rehash until
    the hash starts with `difficulty` zeros, giving up once the nonce passes one million. */
module Mining {
  import opened Text

  const MaxNonce: int := 1_000_000

  /** The required prefix; a negative difficulty asks for none (`"0" * d` is empty). */
  function Target(difficulty: int): (t: string)
    ensures |t| == (if difficulty < 0 then 0 else difficulty)
    ensures forall i :: 0 <= i < |t| ==> t[i] == '0'
  {
    Repeat('0', if difficulty < 0 then 0 else difficulty)
  }

  predicate Meets(hash: string, difficulty: int) {
    StartsWith(hash, Target(difficulty))
  }

  /** The nonce the loop stops at when it is entered with nonce `n`; `h` gives the block's
      hash for each nonce. */
  function StopNonce(h: int -> string, difficulty: int, n: int): (m: int)
    decreases MaxNonce - n
    ensures m > n
    ensures Meets(h(m), difficulty) || m > MaxNonce
    ensures n < MaxNonce ==> m <= MaxNonce + 1
    ensures n >= MaxNonce ==> m == n + 1
  {
    if n + 1 > MaxNonce || Meets(h(n + 1), difficulty) then n + 1
    else StopNonce(h, difficulty, n + 1)
  }

  /** The loop stops at the first nonce whose hash qualifies: every nonce it passes fails. */
  lemma {:induction false} StopNonceIsFirst(h: int -> string, difficulty: int, n: int)
    decreases MaxNonce - n
    ensures forall k :: n < k < StopNonce(h, difficulty, n) ==> !Meets(h(k), difficulty)
  {
    if !(n + 1 > MaxNonce || Meets(h(n + 1), difficulty)) {
      StopNonceIsFirst(h, difficulty, n + 1);
    }
  }

  /** With no required prefix every hash qualifies, so mining never runs its loop. */
  lemma NoDifficultyAlwaysMeets(hash: string, difficulty: int)
    requires difficulty <= 0
    ensures Meets(hash, difficulty)
  {
  }

  /** A hash that meets a difficulty meets every smaller one. */
  lemma MeetsWeaker(hash: string, difficulty: int, weaker: int)
    requires weaker <= difficulty && Meets(hash, difficulty)
    ensures Meets(hash, weaker)
  {
    var t := Target(difficulty);
    var w := Target(weaker);
    assert w == t[..|w|];
    assert hash[..|w|] == hash[..|t|][..|w|];
  }
}
