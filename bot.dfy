/** The virtual player: its name, its random helper, the word candidates it
    collects, and the letter-count map it uses while building words. */
module Bots {
  import opened Common

  const BotNames: seq<string> := ["Jimmy", "Sasha", "Beep"]

  /** A candidate word with where it would go and what it would be worth. */
  datatype ValidWord = ValidWord(
    word: string,
    indexFound: int,
    emptyCount: int,
    leftCount: int,
    rightCount: int,
    isVertical: bool,
    startingTileX: int,
    startingTileY: int,
    numberOfLettersPlaced: int,
    value: int,
    adjacentWords: seq<seq<Vec2>>)

  /** `new ValidWord(word)`: every other field at its default. */
  function NewValidWord(word: string): (v: ValidWord)
    ensures v.word == word && !v.isVertical && v.numberOfLettersPlaced == 0 && v.value == 0
  {
    ValidWord(word, 0, 0, 0, 0, false, 0, 0, 0, 0, [])
  }

  /** `getRandomInt(max, min)`: the floor of a uniform draw between min and
      max, modelled as any integer the floor can produce. */
  method GetRandomInt(max: int, min: int := 0) returns (r: int)
    ensures max > min ==> min <= r < max
    ensures max == min ==> r == min
    ensures max < min ==> max <= r <= min
  {
    if max > min {
      r :| min <= r < max;
    } else if max == min {
      r := min;
    } else {
      r :| max <= r <= min;
    }
  }

  /** `emptyCheck`: an empty cell reads as '-'. */
  function EmptyCheck(letterInBox: char): (r: char)
    ensures r == '-' <==> letterInBox == EmptyChar || letterInBox == '-'
    ensures letterInBox != EmptyChar ==> r == letterInBox
  {
    if letterInBox != EmptyChar then letterInBox else '-'
  }

  /** `generateBotName`: draws a name from the list until it differs from the
      opponent's; the draws are modelled as one choice among those names. */
  method GenerateBotName(opponentName: string) returns (generatedName: string)
    ensures generatedName in BotNames && generatedName != opponentName
  {
    var index := GetRandomInt(|BotNames|);
    generatedName := BotNames[index];
    if generatedName == opponentName {
      ghost var other := if BotNames[0] != opponentName then BotNames[0] else BotNames[1];
      assert other in BotNames && other != opponentName;
      generatedName :| generatedName in BotNames && generatedName != opponentName;
    }
  }

  class Bot {
    var name: string
    var letterRack: seq<Letter>
    var validWordList: seq<ValidWord>
    var timesUp: bool

    /** A bot named differently from its opponent, with an empty rack. */
    constructor (opponentName: string)
      ensures name in BotNames && name != opponentName
      ensures letterRack == [] && validWordList == [] && !timesUp
    {
      var generated := GenerateBotName(opponentName);
      name := generated;
      letterRack := [];
      validWordList := [];
      timesUp := false;
    }
  }

  // ---------------------------------------------------------------------------
  // The rack's letter counts, an insertion-ordered map from letter to count.

  predicate DistinctKeys(keys: seq<string>) {
    forall i, j :: 0 <= i < j < |keys| ==> keys[i] != keys[j]
  }

  class LetterCounts {
    var keys: seq<string>
    var counts: map<string, int>

    ghost predicate Valid()
      reads this
    {
      DistinctKeys(keys) && forall k :: k in counts <==> k in keys
    }

    constructor (keys: seq<string>, counts: map<string, int>)
      requires DistinctKeys(keys) && forall k :: k in counts <==> k in keys
      ensures Valid() && this.keys == keys && this.counts == counts
    {
      this.keys := keys;
      this.counts := counts;
    }
  }

  /** The keys without `key`, in their order. */
  function RemoveKey(keys: seq<string>, key: string): (r: seq<string>)
    ensures forall k :: k in r <==> k in keys && k != key
  {
    if keys == [] then []
    else if keys[0] == key then RemoveKey(keys[1..], key)
    else [keys[0]] + RemoveKey(keys[1..], key)
  }

  lemma {:induction false} RemoveKeyDistinct(keys: seq<string>, key: string)
    requires DistinctKeys(keys)
    ensures DistinctKeys(RemoveKey(keys, key))
  {
    if keys != [] {
      RemoveKeyDistinct(keys[1..], key);
      if keys[0] != key {
        var r := RemoveKey(keys[1..], key);
        assert keys[0] !in keys[1..];
        assert forall j :: 0 <= j < |r| ==> r[j] in keys[1..];
        assert RemoveKey(keys, key) == [keys[0]] + r;
      }
    }
  }

  /** `deleteTmpLetter`: a count above one goes down by one, any other
      non-zero count takes the key out; a missing map, an absent key or a zero
      count leave everything as it was. */
  method DeleteTmpLetter(placedLetter: string, mapRack: LetterCounts?)
    requires mapRack != null ==> mapRack.Valid()
    modifies mapRack
    ensures mapRack != null ==> mapRack.Valid()
    ensures mapRack != null ==>
      var letterCount := if placedLetter in old(mapRack.counts) then old(mapRack.counts)[placedLetter] else 0;
      if letterCount == 0 then
        mapRack.keys == old(mapRack.keys) && mapRack.counts == old(mapRack.counts)
      else if letterCount > 1 then
        mapRack.keys == old(mapRack.keys) && mapRack.counts == old(mapRack.counts)[placedLetter := letterCount - 1]
      else
        mapRack.keys == RemoveKey(old(mapRack.keys), placedLetter)
        && mapRack.counts == old(mapRack.counts) - {placedLetter}
  {
    if mapRack == null {
      return;
    }
    var letterCount := if placedLetter in mapRack.counts then mapRack.counts[placedLetter] else 0;
    if letterCount == 0 {
      return;
    }
    if letterCount > 1 {
      mapRack.counts := mapRack.counts[placedLetter := letterCount - 1];
    } else {
      mapRack.counts := mapRack.counts - {placedLetter};
      RemoveKeyDistinct(mapRack.keys, placedLetter);
      mapRack.keys := RemoveKey(mapRack.keys, placedLetter);
    }
  }

  function RepeatString(s: string, n: int): (r: string)
    ensures |r| == (if n <= 0 then 0 else n * |s|)
  {
    if n <= 0 then "" else RepeatString(s, n - 1) + s
  }

  /** `mapRack.get(key)`, with an absent key read as 0: both stop `tmpLetterLeft`. */
  function CountOf(counts: map<string, int>, key: string): int {
    if key in counts then counts[key] else 0
  }

  /** What `tmpLetterLeft` builds: each non-joker key repeated its count
      times, in key order, stopping at the first key whose count is zero. */
  function LettersLeft(keys: seq<string>, counts: map<string, int>): string
  {
    if keys == [] then ""
    else if keys[0] == [JokerChar] then LettersLeft(keys[1..], counts)
    else if CountOf(counts, keys[0]) == 0 then ""
    else RepeatString(keys[0], CountOf(counts, keys[0])) + LettersLeft(keys[1..], counts)
  }

  /** `tmpLetterLeft`. */
  method TmpLetterLeft(mapRack: LetterCounts?) returns (lettersLeft: string)
    requires mapRack != null ==> mapRack.Valid()
    ensures mapRack == null ==> lettersLeft == ""
    ensures mapRack != null ==> lettersLeft == LettersLeft(mapRack.keys, mapRack.counts)
  {
    lettersLeft := "";
    if mapRack == null {
      return;
    }
    var keys := mapRack.keys;
    var counts := mapRack.counts;
    ghost var target := LettersLeft(keys, counts);
    assert keys[0..] == keys;
    for i := 0 to |keys|
      invariant lettersLeft + LettersLeft(keys[i..], counts) == target
    {
      var key := keys[i];
      TakeKeyStep(lettersLeft, keys, counts, i);
      if key != [JokerChar] {
        var letterCount := CountOf(counts, key);
        if letterCount == 0 {
          return;
        }
        lettersLeft := AppendRepeated(lettersLeft, key, letterCount);
      }
    }
    assert keys[|keys|..] == [];
    assert lettersLeft + "" == lettersLeft;
  }

  /** One key of `tmpLetterLeft`: the letters so far, then that key's copies,
      then what the later keys give, are what the earlier letters plus this
      key onwards give. */
  lemma TakeKeyStep(acc: string, keys: seq<string>, counts: map<string, int>, i: int)
    requires 0 <= i < |keys|
    ensures keys[i] == [JokerChar] ==>
      acc + LettersLeft(keys[i..], counts) == acc + LettersLeft(keys[i + 1..], counts)
    ensures keys[i] != [JokerChar] && CountOf(counts, keys[i]) == 0 ==>
      acc + LettersLeft(keys[i..], counts) == acc
    ensures keys[i] != [JokerChar] && CountOf(counts, keys[i]) != 0 ==>
      acc + LettersLeft(keys[i..], counts)
        == acc + RepeatString(keys[i], CountOf(counts, keys[i])) + LettersLeft(keys[i + 1..], counts)
  {
    LettersLeftStep(keys, counts, i);
    var rep := RepeatString(keys[i], CountOf(counts, keys[i]));
    var rest := LettersLeft(keys[i + 1..], counts);
    assert acc + (rep + rest) == acc + rep + rest;
    assert acc + "" == acc;
  }

  lemma LettersLeftStep(keys: seq<string>, counts: map<string, int>, i: int)
    requires 0 <= i < |keys|
    ensures LettersLeft(keys[i..], counts) ==
      if keys[i] == [JokerChar] then LettersLeft(keys[i + 1..], counts)
      else if CountOf(counts, keys[i]) == 0 then ""
      else RepeatString(keys[i], CountOf(counts, keys[i])) + LettersLeft(keys[i + 1..], counts)
  {
    assert keys[i..][0] == keys[i] && keys[i..][1..] == keys[i + 1..];
  }

  /** The inner loop of `tmpLetterLeft`: `count` copies of `key` appended. */
  method AppendRepeated(s: string, key: string, count: int) returns (r: string)
    ensures r == s + RepeatString(key, count)
  {
    r := s;
    var j := 0;
    while j < count
      invariant j <= count || j == 0
      invariant r == s + RepeatString(key, j)
    {
      r := r + key;
      j := j + 1;
    }
  }

  /** The sum of the non-joker counts. */
  function NonJokerTotal(keys: seq<string>, counts: map<string, int>): int
    requires forall k :: k in keys ==> k in counts
  {
    if keys == [] then 0
    else (if keys[0] == [JokerChar] then 0 else counts[keys[0]]) + NonJokerTotal(keys[1..], counts)
  }

  /** Racks hold single letters with positive counts. */
  predicate WellFormedCounts(keys: seq<string>, counts: map<string, int>) {
    (forall k :: k in keys ==> k in counts && |k| == 1)
    && (forall k :: k in keys && k != [JokerChar] ==> counts[k] >= 1)
  }

  /** `tmpLetterLeft` on a well-formed map yields one character per non-joker letter. */
  lemma {:induction false} LettersLeftLength(keys: seq<string>, counts: map<string, int>)
    requires WellFormedCounts(keys, counts)
    ensures |LettersLeft(keys, counts)| == NonJokerTotal(keys, counts)
  {
    if keys != [] {
      assert forall k :: k in keys[1..] ==> k in keys;
      LettersLeftLength(keys[1..], counts);
    }
  }

  lemma {:induction false} TotalAfterDecrement(keys: seq<string>, counts: map<string, int>, key: string)
    requires forall k :: k in keys ==> k in counts
    requires DistinctKeys(keys) && key in keys && key != [JokerChar]
    ensures NonJokerTotal(keys, counts[key := counts[key] - 1]) == NonJokerTotal(keys, counts) - 1
  {
    if keys[0] == key {
      assert key !in keys[1..];
      TotalUnaffected(keys[1..], counts, key, counts[key] - 1);
    } else {
      assert key in keys[1..];
      TotalAfterDecrement(keys[1..], counts, key);
    }
  }

  lemma {:induction false} TotalUnaffected(keys: seq<string>, counts: map<string, int>, key: string, c: int)
    requires forall k :: k in keys ==> k in counts
    requires key !in keys
    ensures NonJokerTotal(keys, counts[key := c]) == NonJokerTotal(keys, counts)
    ensures NonJokerTotal(keys, counts - {key}) == NonJokerTotal(keys, counts)
  {
    if keys != [] {
      TotalUnaffected(keys[1..], counts, key, c);
    }
  }

  lemma {:induction false} TotalAfterRemoval(keys: seq<string>, counts: map<string, int>, key: string)
    requires forall k :: k in keys ==> k in counts
    requires DistinctKeys(keys) && key in keys && key != [JokerChar]
    ensures NonJokerTotal(RemoveKey(keys, key), counts - {key}) == NonJokerTotal(keys, counts) - counts[key]
  {
    if keys[0] == key {
      assert key !in keys[1..];
      RemoveKeyAbsent(keys[1..], key);
      TotalUnaffected(keys[1..], counts, key, 0);
    } else {
      TotalAfterRemoval(keys[1..], counts, key);
    }
  }

  lemma {:induction false} RemoveKeyAbsent(keys: seq<string>, key: string)
    requires key !in keys
    ensures RemoveKey(keys, key) == keys
  {
    if keys != [] {
      RemoveKeyAbsent(keys[1..], key);
    }
  }

  /** Taking one placed letter out of a well-formed map shortens what
      `tmpLetterLeft` returns by exactly one character. */
  lemma DeleteShortensLettersLeft(keys: seq<string>, counts: map<string, int>, placedLetter: string)
    requires DistinctKeys(keys) && (forall k :: k in counts <==> k in keys) && WellFormedCounts(keys, counts)
    requires placedLetter in keys && placedLetter != [JokerChar]
    ensures var c := counts[placedLetter];
      var newKeys := if c > 1 then keys else RemoveKey(keys, placedLetter);
      var newCounts := if c > 1 then counts[placedLetter := c - 1] else counts - {placedLetter};
      WellFormedCounts(newKeys, newCounts)
      && |LettersLeft(newKeys, newCounts)| == |LettersLeft(keys, counts)| - 1
  {
    var c := counts[placedLetter];
    LettersLeftLength(keys, counts);
    if c > 1 {
      TotalAfterDecrement(keys, counts, placedLetter);
      LettersLeftLength(keys, counts[placedLetter := c - 1]);
    } else {
      TotalAfterRemoval(keys, counts, placedLetter);
      LettersLeftLength(RemoveKey(keys, placedLetter), counts - {placedLetter});
    }
  }
}
