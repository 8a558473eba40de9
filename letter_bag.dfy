/** The letter bag: the fixed distribution table and the bag of letters that
    players draw from without replacement. */
module LetterBags {
  import opened Common

  /** The 27 kinds of letter, their counts in a new bag and their values,
      aligned by index; the last kind is the joker. */
  const GameLettersLetters: seq<char> := "ABCDEFGHIJKLMNOPQRSTUVWXYZ*"
  const GameLettersCount: seq<nat> :=
    [9, 2, 2, 3, 15, 2, 2, 2, 8, 1, 1, 5, 3, 6, 6, 2, 1, 6, 6, 6, 6, 2, 1, 1, 1, 1, 2]
  const GameLettersValue: seq<int> :=
    [1, 3, 3, 2, 1, 4, 2, 4, 1, 8, 10, 1, 2, 1, 1, 3, 8, 1, 1, 1, 1, 4, 10, 10, 10, 10, 0]
  const PlayerLetterCount: int := 7
  const KindCount: int := 27

  /** The three tables are aligned by index, and the joker is last, twice, worth nothing. */
  lemma TablesAligned()
    ensures |GameLettersLetters| == |GameLettersCount| == |GameLettersValue| == KindCount
    ensures GameLettersLetters[KindCount - 1] == JokerChar
    ensures GameLettersCount[KindCount - 1] == 2 && GameLettersValue[KindCount - 1] == 0
  {
  }

  /** The letter of kind i. */
  function KindLetter(i: int): Letter
    requires 0 <= i < KindCount
  {
    Letter(GameLettersLetters[i], GameLettersValue[i])
  }

  function Repeat(l: Letter, n: nat): (r: seq<Letter>)
    ensures |r| == n && forall j :: 0 <= j < n ==> r[j] == l
  {
    seq(n, _ => l)
  }

  /** The letters of kinds 0..k-1, each repeated its count times, in table order. */
  function BagPrefix(k: nat): seq<Letter>
    requires k <= KindCount
  {
    if k == 0 then [] else BagPrefix(k - 1) + Repeat(KindLetter(k - 1), GameLettersCount[k - 1])
  }

  /** The contents of a freshly built bag. */
  function InitialLetters(): seq<Letter> {
    BagPrefix(KindCount)
  }

  function CountSum(k: nat): int
    requires k <= KindCount
  {
    if k == 0 then 0 else CountSum(k - 1) + GameLettersCount[k - 1]
  }

  lemma {:induction false} BagPrefixLength(k: nat)
    requires k <= KindCount
    ensures |BagPrefix(k)| == CountSum(k)
  {
    if k > 0 {
      BagPrefixLength(k - 1);
    }
  }

  lemma KindChar(i: int)
    requires 0 <= i < KindCount
    ensures GameLettersLetters[i] as int == if i < 26 then 'A' as int + i else '*' as int
  {
  }

  /** The table describes 27 distinct kinds: the joker after 'A'..'Z'. */
  lemma KindsAreDistinct(i: int, j: int)
    requires 0 <= i < KindCount && 0 <= j < KindCount && i != j
    ensures KindLetter(i) != KindLetter(j)
  {
    KindChar(i);
    KindChar(j);
  }

  lemma CountSumUpTo9()
    ensures CountSum(9) == 45
  {
    assert GameLettersCount[0] == 9;
    assert GameLettersCount[1] == 2;
    assert GameLettersCount[2] == 2;
    assert GameLettersCount[3] == 3;
    assert GameLettersCount[4] == 15;
    assert GameLettersCount[5] == 2;
    assert GameLettersCount[6] == 2;
    assert GameLettersCount[7] == 2;
    assert GameLettersCount[8] == 8;
  }

  lemma CountSumUpTo18()
    requires CountSum(9) == 45
    ensures CountSum(18) == 76
  {
    assert GameLettersCount[9] == 1;
    assert GameLettersCount[10] == 1;
    assert GameLettersCount[11] == 5;
    assert GameLettersCount[12] == 3;
    assert GameLettersCount[13] == 6;
    assert GameLettersCount[14] == 6;
    assert GameLettersCount[15] == 2;
    assert GameLettersCount[16] == 1;
    assert GameLettersCount[17] == 6;
  }

  lemma CountSumUpTo27()
    requires CountSum(18) == 76
    ensures CountSum(27) == 102
  {
    assert GameLettersCount[18] == 6;
    assert GameLettersCount[19] == 6;
    assert GameLettersCount[20] == 6;
    assert GameLettersCount[21] == 2;
    assert GameLettersCount[22] == 1;
    assert GameLettersCount[23] == 1;
    assert GameLettersCount[24] == 1;
    assert GameLettersCount[25] == 1;
    assert GameLettersCount[26] == 2;
  }

  /** A new bag holds 102 letters. */
  lemma InitialBagSize()
    ensures |InitialLetters()| == 102
  {
    BagPrefixLength(KindCount);
    CountSumUpTo9();
    CountSumUpTo18();
    CountSumUpTo27();
  }

  lemma {:induction false} BagPrefixCount(k: nat, i: int)
    requires k <= KindCount && 0 <= i < KindCount
    ensures multiset(BagPrefix(k))[KindLetter(i)] == if i < k then GameLettersCount[i] else 0
  {
    if k > 0 {
      BagPrefixCount(k - 1, i);
      AppendedCount(BagPrefix(k - 1), KindLetter(k - 1), GameLettersCount[k - 1], KindLetter(i));
      if i != k - 1 {
        KindsAreDistinct(i, k - 1);
      }
    }
  }

  lemma AppendedCount(prefix: seq<Letter>, l: Letter, n: nat, m: Letter)
    ensures multiset(prefix + Repeat(l, n))[m] == multiset(prefix)[m] + if m == l then n else 0
  {
    assert multiset(prefix + Repeat(l, n)) == multiset(prefix) + multiset(Repeat(l, n));
    RepeatCount(l, n, m);
  }

  lemma {:induction false} RepeatCount(l: Letter, n: nat, m: Letter)
    ensures multiset(Repeat(l, n))[m] == if m == l then n else 0
  {
    if n > 0 {
      assert Repeat(l, n) == Repeat(l, n - 1) + [l];
      RepeatCount(l, n - 1, m);
    }
  }

  /** In a new bag each kind occurs exactly its table count times, with its table value. */
  lemma InitialBagCounts(i: int)
    requires 0 <= i < KindCount
    ensures multiset(InitialLetters())[Letter(GameLettersLetters[i], GameLettersValue[i])] == GameLettersCount[i]
  {
    BagPrefixCount(KindCount, i);
  }

  /** Every letter of a new bag is one of the table's kinds. */
  lemma {:induction false} BagPrefixKinds(k: nat)
    requires k <= KindCount
    ensures forall l :: l in BagPrefix(k) ==> exists i :: 0 <= i < k && l == KindLetter(i)
  {
    if k > 0 {
      BagPrefixKinds(k - 1);
      forall l | l in BagPrefix(k)
        ensures exists i :: 0 <= i < k && l == KindLetter(i)
      {
        if l !in BagPrefix(k - 1) {
          assert l == KindLetter(k - 1);
        }
      }
    }
  }

  /** Appends `count` copies of a letter, one at a time. */
  method AppendCopies(letters: seq<Letter>, l: Letter, count: nat) returns (r: seq<Letter>)
    ensures r == letters + Repeat(l, count)
  {
    r := letters;
    var n := 0;
    while n < count
      invariant 0 <= n <= count
      invariant r == letters + Repeat(l, n)
    {
      r := r + [l];
      assert Repeat(l, n + 1) == Repeat(l, n) + [l];
      n := n + 1;
    }
  }

  /** The bag of letters still to be drawn. */
  class LetterBag {
    var gameLetters: seq<Letter>

    /** Builds the bag kind by kind, each letter repeated its table count. */
    constructor ()
      ensures gameLetters == InitialLetters()
    {
      gameLetters := [];
      new;
      var letterIndex := 0;
      while letterIndex < KindCount
        invariant 0 <= letterIndex <= KindCount
        invariant gameLetters == BagPrefix(letterIndex)
      {
        gameLetters := AppendCopies(gameLetters, KindLetter(letterIndex), GameLettersCount[letterIndex]);
        assert gameLetters == BagPrefix(letterIndex + 1);
        letterIndex := letterIndex + 1;
      }
    }

    /** Draws `count` letters, each at an index chosen at random among the
        letters left; fails, leaving the bag as it was, when fewer remain. */
    method DrawGameLetters(count: int := 1) returns (drawn: Option<seq<Letter>>)
      modifies this
      ensures drawn.None? <==> count > |old(gameLetters)|
      ensures drawn.None? ==> gameLetters == old(gameLetters)
      ensures drawn.Some? ==> |drawn.value| == (if count < 0 then 0 else count)
      ensures drawn.Some? ==> |gameLetters| == |old(gameLetters)| - |drawn.value|
      ensures drawn.Some? ==> multiset(drawn.value) + multiset(gameLetters) == multiset(old(gameLetters))
    {
      if count > |gameLetters| {
        return None;
      }
      var letters: seq<Letter> := [];
      var i := 0;
      while i < count
        invariant 0 <= i <= (if count < 0 then 0 else count)
        invariant |letters| == i
        invariant |gameLetters| == |old(gameLetters)| - i
        invariant multiset(letters) + multiset(gameLetters) == multiset(old(gameLetters))
      {
        var index :| 0 <= index < |gameLetters|;
        assert gameLetters == gameLetters[..index] + [gameLetters[index]] + gameLetters[index + 1..];
        letters := letters + [gameLetters[index]];
        gameLetters := gameLetters[..index] + gameLetters[index + 1..];
        i := i + 1;
      }
      return Some(letters);
    }

    /** Draws a full rack of seven letters. */
    method DrawEmptyRackLetters() returns (drawn: Option<seq<Letter>>)
      modifies this
      ensures drawn.None? <==> |old(gameLetters)| < PlayerLetterCount
      ensures drawn.None? ==> gameLetters == old(gameLetters)
      ensures drawn.Some? ==> |drawn.value| == PlayerLetterCount
      ensures drawn.Some? ==> |gameLetters| == |old(gameLetters)| - PlayerLetterCount
      ensures drawn.Some? ==> multiset(drawn.value) + multiset(gameLetters) == multiset(old(gameLetters))
    {
      drawn := DrawGameLetters(PlayerLetterCount);
    }
  }
}
