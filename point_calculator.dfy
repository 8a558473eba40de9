/** Scoring: the points of a formed word (each board tile once, letter
    multipliers inside the sum, word multipliers as a product), the value of a
    rack, the turn total with the seven-letter bonus, the one-shot reset of
    letter multipliers, and the end-of-game deduction. A word is the sequence
    of the board cells it runs through: a tile is identified by its cell. */
module PointCalculator {
  import opened Common

  const MaxLetterInRack: int := 7
  const Bonus: int := 50

  predicate OnBoard(word: seq<Vec2>) {
    forall i :: 0 <= i < |word| ==> InBoard(word[i])
  }

  predicate AllOnBoard(wordList: seq<seq<Vec2>>) {
    forall i :: 0 <= i < |wordList| ==> OnBoard(wordList[i])
  }

  // ---------------------------------------------------------------------------
  // Word score.

  /** The cells of `word` with repetitions dropped, first occurrences kept in
      order: the iteration order of a `Set` built from the word's tiles. */
  function Distinct(word: seq<Vec2>): seq<Vec2> {
    if word == [] then []
    else if word[|word| - 1] in word[..|word| - 1] then Distinct(word[..|word| - 1])
    else Distinct(word[..|word| - 1]) + [word[|word| - 1]]
  }

  lemma {:induction false} DistinctProperties(word: seq<Vec2>)
    ensures forall v :: v in Distinct(word) <==> v in word
    ensures forall i, j :: 0 <= i < j < |Distinct(word)| ==> Distinct(word)[i] != Distinct(word)[j]
    ensures |Distinct(word)| <= |word|
  {
    if word != [] {
      var init := word[..|word| - 1];
      DistinctProperties(init);
      assert word == init + [word[|word| - 1]];
    }
  }

  /** Sum of letter value times letter multiplier over the cells. */
  function LetterSum(g: Grid, cells: seq<Vec2>): int
    requires ValidGrid(g) && OnBoard(cells)
  {
    if cells == [] then 0
    else
      var v := cells[|cells| - 1];
      LetterSum(g, cells[..|cells| - 1]) + g[v.y][v.x].letter.value * g[v.y][v.x].letterMultiplier
  }

  /** Product of the word multipliers over the cells. */
  function WordMultiplier(g: Grid, cells: seq<Vec2>): int
    requires ValidGrid(g) && OnBoard(cells)
  {
    if cells == [] then 1
    else
      var v := cells[|cells| - 1];
      WordMultiplier(g, cells[..|cells| - 1]) * g[v.y][v.x].wordMultiplier
  }

  /** Sum of the plain letter values over the cells. */
  function ValueSum(g: Grid, cells: seq<Vec2>): int
    requires ValidGrid(g) && OnBoard(cells)
  {
    if cells == [] then 0
    else
      var v := cells[|cells| - 1];
      ValueSum(g, cells[..|cells| - 1]) + g[v.y][v.x].letter.value
  }

  lemma DistinctOnBoard(word: seq<Vec2>)
    requires OnBoard(word)
    ensures OnBoard(Distinct(word))
  {
    DistinctProperties(word);
    forall i | 0 <= i < |Distinct(word)|
      ensures InBoard(Distinct(word)[i])
    {
      var v := Distinct(word)[i];
      assert v in word;
    }
  }

  /** The score of one formed word. */
  function WordScore(g: Grid, word: seq<Vec2>): int
    requires ValidGrid(g) && OnBoard(word)
  {
    DistinctOnBoard(word);
    LetterSum(g, Distinct(word)) * WordMultiplier(g, Distinct(word))
  }

  /** `calculatePointsOfWord`: accumulates over the tiles not seen before. */
  method CalculatePointsOfWord(grid: array2<Tile>, word: seq<Vec2>) returns (sumOfWord: int)
    requires grid.Length0 == BoardDimension && grid.Length1 == BoardDimension
    requires OnBoard(word)
    ensures sumOfWord == WordScore(Snapshot(grid), word)
  {
    ghost var g := Snapshot(grid);
    sumOfWord := 0;
    var totalWordMultiplier := 1;
    var lettersInWord: set<Vec2> := {};
    for i := 0 to |word|
      invariant forall v :: v in lettersInWord <==> v in word[..i]
      invariant OnBoard(Distinct(word[..i]))
      invariant sumOfWord == LetterSum(g, Distinct(word[..i]))
      invariant totalWordMultiplier == WordMultiplier(g, Distinct(word[..i]))
    {
      var tile := word[i];
      DistinctStep(g, word, i);
      if tile !in lettersInWord {
        var t := grid[tile.y, tile.x];
        sumOfWord := sumOfWord + t.letter.value * t.letterMultiplier;
        totalWordMultiplier := totalWordMultiplier * t.wordMultiplier;
      }
      lettersInWord := lettersInWord + {tile};
    }
    assert word[..|word|] == word;
    DistinctOnBoard(word);
    sumOfWord := sumOfWord * totalWordMultiplier;
  }

  /** One tile of `calculatePointsOfWord`: a tile seen before leaves the
      distinct cells as they were; a new one is appended and adds its terms. */
  lemma DistinctStep(g: Grid, word: seq<Vec2>, i: int)
    requires ValidGrid(g) && OnBoard(word) && 0 <= i < |word|
    ensures OnBoard(Distinct(word[..i + 1]))
    ensures word[i] in word[..i] ==> Distinct(word[..i + 1]) == Distinct(word[..i])
    ensures word[i] !in word[..i] ==>
      var d := Distinct(word[..i]);
      var t := g[word[i].y][word[i].x];
      OnBoard(d) && Distinct(word[..i + 1]) == d + [word[i]]
      && LetterSum(g, d + [word[i]]) == LetterSum(g, d) + t.letter.value * t.letterMultiplier
      && WordMultiplier(g, d + [word[i]]) == WordMultiplier(g, d) * t.wordMultiplier
  {
    assert word[..i + 1][..i] == word[..i] && word[..i + 1][i] == word[i];
    DistinctOnBoard(word[..i]);
    DistinctOnBoard(word[..i + 1]);
    var d := Distinct(word[..i]);
    assert (d + [word[i]])[..|d|] == d;
  }

  /** A tile that occurs again in a word adds nothing to its score. */
  lemma RepeatedTileCountsOnce(g: Grid, word: seq<Vec2>, v: Vec2)
    requires ValidGrid(g) && OnBoard(word) && v in word
    ensures OnBoard(word + [v])
    ensures WordScore(g, word + [v]) == WordScore(g, word)
  {
    assert (word + [v])[..|word|] == word;
  }

  lemma {:induction false} PlainMultipliers(g: Grid, cells: seq<Vec2>)
    requires ValidGrid(g) && OnBoard(cells)
    requires forall i :: 0 <= i < |cells| ==>
      g[cells[i].y][cells[i].x].letterMultiplier == 1 && g[cells[i].y][cells[i].x].wordMultiplier == 1
    ensures LetterSum(g, cells) == ValueSum(g, cells)
    ensures WordMultiplier(g, cells) == 1
  {
    if cells != [] {
      PlainMultipliers(g, cells[..|cells| - 1]);
    }
  }

  /** Without multipliers a word scores the sum of its tiles' values. */
  lemma PlainWordScore(g: Grid, word: seq<Vec2>)
    requires ValidGrid(g) && OnBoard(word)
    requires forall i :: 0 <= i < |word| ==>
      g[word[i].y][word[i].x].letterMultiplier == 1 && g[word[i].y][word[i].x].wordMultiplier == 1
    ensures OnBoard(Distinct(word))
    ensures WordScore(g, word) == ValueSum(g, Distinct(word))
  {
    DistinctProperties(word);
    DistinctOnBoard(word);
    var d := Distinct(word);
    forall i | 0 <= i < |d|
      ensures g[d[i].y][d[i].x].letterMultiplier == 1 && g[d[i].y][d[i].x].wordMultiplier == 1
    {
      assert d[i] in word;
    }
    PlainMultipliers(g, d);
  }

  lemma {:induction false} SumsNonNegative(g: Grid, cells: seq<Vec2>)
    requires ValidGrid(g) && OnBoard(cells)
    requires forall i :: 0 <= i < |cells| ==>
      (g[cells[i].y][cells[i].x].letter.value >= 0 && g[cells[i].y][cells[i].x].letterMultiplier >= 1
       && g[cells[i].y][cells[i].x].wordMultiplier >= 1)
    ensures LetterSum(g, cells) >= ValueSum(g, cells) >= 0
    ensures WordMultiplier(g, cells) >= 1
  {
    if cells != [] {
      SumsNonNegative(g, cells[..|cells| - 1]);
      var v := cells[|cells| - 1];
      var t := g[v.y][v.x];
      ScaleUp(t.letter.value, t.letterMultiplier);
      ScaleUp(WordMultiplier(g, cells[..|cells| - 1]), t.wordMultiplier);
    }
  }

  lemma ScaleUp(s: int, m: int)
    requires s >= 0 && m >= 1
    ensures s * m >= s
  {
    assert s * m == s + s * (m - 1);
  }

  /** With non-negative values and multipliers of at least one, multipliers
      never lower a word below the plain sum of its values. */
  lemma MultipliersNeverLowerScore(g: Grid, word: seq<Vec2>)
    requires ValidGrid(g) && OnBoard(word)
    requires forall i :: 0 <= i < |word| ==>
      (g[word[i].y][word[i].x].letter.value >= 0 && g[word[i].y][word[i].x].letterMultiplier >= 1
       && g[word[i].y][word[i].x].wordMultiplier >= 1)
    ensures OnBoard(Distinct(word))
    ensures WordScore(g, word) >= ValueSum(g, Distinct(word)) >= 0
  {
    DistinctProperties(word);
    DistinctOnBoard(word);
    var d := Distinct(word);
    forall i | 0 <= i < |d|
      ensures g[d[i].y][d[i].x].letter.value >= 0
        && g[d[i].y][d[i].x].letterMultiplier >= 1 && g[d[i].y][d[i].x].wordMultiplier >= 1
    {
      assert d[i] in word;
    }
    SumsNonNegative(g, d);
    ScaleUp(LetterSum(g, d), WordMultiplier(g, d));
  }

  // ---------------------------------------------------------------------------
  // Rack value and tile strings.

  /** The value of a rack: the sum of its letters' values. */
  function RackValue(rack: seq<Letter>): int {
    if rack == [] then 0 else RackValue(rack[..|rack| - 1]) + rack[|rack| - 1].value
  }

  /** `calculatePointsOfRack`. The `Set` it builds holds the rack's letter
      objects, which are distinct, so every entry counts. */
  method CalculatePointsOfRack(player: Player) returns (sumOfRack: int)
    ensures sumOfRack == RackValue(player.letterRack)
  {
    sumOfRack := 0;
    var letterRack := player.letterRack;
    for i := 0 to |letterRack|
      invariant sumOfRack == RackValue(letterRack[..i])
    {
      assert letterRack[..i + 1][..i] == letterRack[..i];
      sumOfRack := sumOfRack + letterRack[i].value;
    }
    assert letterRack[..|letterRack|] == letterRack;
  }

  lemma {:induction false} RackValueAppend(a: seq<Letter>, b: seq<Letter>)
    ensures RackValue(a + b) == RackValue(a) + RackValue(b)
  {
    if b == [] {
      assert a + b == a;
    } else {
      assert (a + b)[..|a + b| - 1] == a + b[..|b| - 1];
      assert (a + b)[|a + b| - 1] == b[|b| - 1];
      RackValueAppend(a, b[..|b| - 1]);
    }
  }

  /** Rack values with non-negative letter values are non-negative, and the
      value does not depend on the order of the rack. */
  lemma {:induction false} RackValueNonNegative(rack: seq<Letter>)
    requires forall i :: 0 <= i < |rack| ==> rack[i].value >= 0
    ensures RackValue(rack) >= 0
  {
    if rack != [] {
      RackValueNonNegative(rack[..|rack| - 1]);
    }
  }

  lemma {:induction false} RackValueRemove(b: seq<Letter>, k: int)
    requires 0 <= k < |b|
    ensures RackValue(b) == RackValue(b[..k] + b[k + 1..]) + b[k].value
  {
    var pre, l, post := b[..k], b[k], b[k + 1..];
    assert b == (pre + [l]) + post;
    assert RackValue([l]) == l.value by {
      assert [l][..0] == [];
    }
    RackValueAppend(pre + [l], post);
    RackValueAppend(pre, [l]);
    RackValueAppend(pre, post);
  }

  lemma {:induction false} RackValuePermutation(a: seq<Letter>, b: seq<Letter>)
    requires multiset(a) == multiset(b)
    ensures RackValue(a) == RackValue(b)
    decreases |a|
  {
    if a != [] {
      var l := a[|a| - 1];
      assert l in multiset(b);
      var k :| 0 <= k < |b| && b[k] == l;
      var rest := b[..k] + b[k + 1..];
      RackValueRemove(b, k);
      assert a == a[..|a| - 1] + [l];
      assert multiset(a) == multiset(a[..|a| - 1]) + multiset{l};
      assert b == b[..k] + [l] + b[k + 1..];
      assert multiset(b) == multiset(b[..k]) + multiset{l} + multiset(b[k + 1..]);
      assert multiset(rest) == multiset(b[..k]) + multiset(b[k + 1..]);
      assert multiset(a[..|a| - 1]) == multiset(a) - multiset{l};
      assert multiset(rest) == multiset(b) - multiset{l};
      RackValuePermutation(a[..|a| - 1], rest);
    }
  }

  /** `tileToString`: the characters of the word's tiles in order. */
  method TileToString(grid: array2<Tile>, word: seq<Vec2>) returns (wordTemp: string)
    requires grid.Length0 == BoardDimension && grid.Length1 == BoardDimension
    requires OnBoard(word)
    ensures |wordTemp| == |word|
    ensures forall i :: 0 <= i < |word| ==> wordTemp[i] == CharAt(Snapshot(grid), word[i])
  {
    wordTemp := "";
    for i := 0 to |word|
      invariant |wordTemp| == i
      invariant forall k :: 0 <= k < i ==> wordTemp[k] == grid[word[k].y, word[k].x].letter.ch
    {
      wordTemp := wordTemp + [grid[word[i].y, word[i].x].letter.ch];
    }
  }

  // ---------------------------------------------------------------------------
  // Turn score.

  /** The scores of the formed words, summed. */
  function WordsScore(g: Grid, wordList: seq<seq<Vec2>>): int
    requires ValidGrid(g) && AllOnBoard(wordList)
  {
    if wordList == [] then 0
    else WordsScore(g, wordList[..|wordList| - 1]) + WordScore(g, wordList[|wordList| - 1])
  }

  /** The points of a placement: the formed words, plus the bonus when the
      rack was emptied by a word of at least seven characters. */
  function TurnScore(g: Grid, wordList: seq<seq<Vec2>>, rackEmpty: bool, wordLength: int): int
    requires ValidGrid(g) && AllOnBoard(wordList)
  {
    WordsScore(g, wordList) + (if rackEmpty && wordLength >= MaxLetterInRack then Bonus else 0)
  }

  /** The bonus is exactly the difference an emptied rack makes to a long word. */
  lemma BonusForFullRack(g: Grid, wordList: seq<seq<Vec2>>, wordLength: int)
    requires ValidGrid(g) && AllOnBoard(wordList)
    ensures wordLength >= MaxLetterInRack ==>
      TurnScore(g, wordList, true, wordLength) == TurnScore(g, wordList, false, wordLength) + Bonus
    ensures wordLength < MaxLetterInRack ==>
      TurnScore(g, wordList, true, wordLength) == TurnScore(g, wordList, false, wordLength)
  {
  }

  function Cells(word: seq<Vec2>): (r: set<Vec2>)
    ensures forall v :: v in r <==> v in word
  {
    set i | 0 <= i < |word| :: word[i]
  }

  /** The cells of all formed words. */
  function Covered(wordList: seq<seq<Vec2>>): set<Vec2> {
    if wordList == [] then {}
    else Covered(wordList[..|wordList| - 1]) + Cells(wordList[|wordList| - 1])
  }

  /** The inner loop of `placeLetterPointsCalculation`: resets the letter
      multiplier of each tile of one word, twice, and touches nothing else. */
  method DesactivateWordLetters(grid: array2<Tile>, w: seq<Vec2>)
    requires grid.Length0 == BoardDimension && grid.Length1 == BoardDimension
    requires OnBoard(w)
    modifies grid
    ensures forall y, x :: 0 <= y < BoardDimension && 0 <= x < BoardDimension ==>
      grid[y, x] == if Vec2(x, y) in Cells(w) then old(grid[y, x]).(letterMultiplier := 1)
                    else old(grid[y, x])
  {
    for j := 0 to |w|
      invariant forall y, x :: 0 <= y < BoardDimension && 0 <= x < BoardDimension ==>
        grid[y, x] == if Vec2(x, y) in w[..j] then old(grid[y, x]).(letterMultiplier := 1)
                      else old(grid[y, x])
    {
      var tile := w[j];
      assert w[..j + 1] == w[..j] + [tile];
      grid[tile.y, tile.x] := grid[tile.y, tile.x].(letterMultiplier := 1);
      grid[tile.y, tile.x] := grid[tile.y, tile.x].(letterMultiplier := 1);
    }
    assert w[..|w|] == w;
  }

  /** `placeLetterPointsCalculation`: scores every formed word on the board as
      it stands, then resets the letter multiplier of each of their tiles
      (twice; the word multipliers are left as they are), adds the bonus and
      credits the player. */
  method PlaceLetterPointsCalculation(grid: array2<Tile>, player: Player, word: string,
                                      wordList: seq<seq<Vec2>>) returns (totalPointsOfTurn: int)
    requires grid.Length0 == BoardDimension && grid.Length1 == BoardDimension
    requires AllOnBoard(wordList)
    modifies grid, player
    ensures totalPointsOfTurn ==
      TurnScore(old(Snapshot(grid)), wordList, |player.letterRack| == 0, |word|)
    ensures player.points == old(player.points) + totalPointsOfTurn
    ensures player.letterRack == old(player.letterRack) && player.name == old(player.name)
    ensures forall y, x :: 0 <= y < BoardDimension && 0 <= x < BoardDimension ==>
      grid[y, x] == if Vec2(x, y) in Covered(wordList) then old(grid[y, x]).(letterMultiplier := 1)
                    else old(grid[y, x])
  {
    ghost var g := Snapshot(grid);
    totalPointsOfTurn := 0;
    for i := 0 to |wordList|
      invariant unchanged(grid) && unchanged(player)
      invariant totalPointsOfTurn == WordsScore(g, wordList[..i])
    {
      assert wordList[..i + 1][..i] == wordList[..i];
      var points := CalculatePointsOfWord(grid, wordList[i]);
      totalPointsOfTurn := totalPointsOfTurn + points;
    }
    assert wordList[..|wordList|] == wordList;
    assert wordList[..0] == [];
    for i := 0 to |wordList|
      invariant unchanged(player)
      invariant forall y, x :: 0 <= y < BoardDimension && 0 <= x < BoardDimension ==>
        grid[y, x] == if Vec2(x, y) in Covered(wordList[..i]) then old(grid[y, x]).(letterMultiplier := 1)
                      else old(grid[y, x])
    {
      assert wordList[..i + 1][..i] == wordList[..i];
      DesactivateWordLetters(grid, wordList[i]);
    }
    if |player.letterRack| == 0 && |word| >= MaxLetterInRack {
      totalPointsOfTurn := totalPointsOfTurn + Bonus;
    }
    player.points := player.points + totalPointsOfTurn;
  }

  // ---------------------------------------------------------------------------
  // End of game.

  function Sum(s: seq<int>): int {
    if s == [] then 0 else Sum(s[..|s| - 1]) + s[|s| - 1]
  }

  /** Sum of the values at every index below n except `active`. */
  function OthersSum(rackValues: seq<int>, active: int, n: nat): int
    requires n <= |rackValues|
  {
    if n == 0 then 0
    else OthersSum(rackValues, active, n - 1) + (if n - 1 == active then 0 else rackValues[n - 1])
  }

  /** The points after `endOfGamePointdeduction`. After six consecutive passes
      everyone loses the value of their rack; otherwise every other player's
      rack value moves from that player to the active player. */
  function Deduction(points: seq<int>, rackValues: seq<int>, active: int, consecutivePass: int): (r: seq<int>)
    requires |points| == |rackValues| && 0 <= active < |points|
    ensures |r| == |points|
  {
    seq(|points|, i requires 0 <= i < |points| =>
      if consecutivePass < MaxConsecutivePass && i == active
      then points[i] + OthersSum(rackValues, active, |rackValues|)
      else points[i] - rackValues[i])
  }

  lemma {:induction false} OthersSumIsSum(rackValues: seq<int>, active: int, n: nat)
    requires n <= |rackValues|
    ensures OthersSum(rackValues, active, n) ==
      Sum(rackValues[..n]) - (if 0 <= active < n then rackValues[active] else 0)
  {
    if n > 0 {
      OthersSumIsSum(rackValues, active, n - 1);
      assert rackValues[..n][..n - 1] == rackValues[..n - 1];
    }
  }

  lemma {:induction false} DeductionPrefixSum(points: seq<int>, rackValues: seq<int>, active: int,
                                              consecutivePass: int, n: nat)
    requires |points| == |rackValues| && 0 <= active < |points| && n <= |points|
    ensures Sum(Deduction(points, rackValues, active, consecutivePass)[..n]) ==
      Sum(points[..n]) - Sum(rackValues[..n]) +
      (if consecutivePass < MaxConsecutivePass && active < n
       then rackValues[active] + OthersSum(rackValues, active, |rackValues|) else 0)
  {
    if n > 0 {
      var d := Deduction(points, rackValues, active, consecutivePass);
      DeductionPrefixSum(points, rackValues, active, consecutivePass, n - 1);
      assert d[..n][..n - 1] == d[..n - 1];
      assert points[..n][..n - 1] == points[..n - 1];
      assert rackValues[..n][..n - 1] == rackValues[..n - 1];
    }
  }

  /** Outside the six-pass case the deduction only moves points: the total is kept. */
  lemma TransferConservesPoints(points: seq<int>, rackValues: seq<int>, active: int, consecutivePass: int)
    requires |points| == |rackValues| && 0 <= active < |points|
    requires consecutivePass < MaxConsecutivePass
    ensures Sum(Deduction(points, rackValues, active, consecutivePass)) == Sum(points)
  {
    var d := Deduction(points, rackValues, active, consecutivePass);
    DeductionPrefixSum(points, rackValues, active, consecutivePass, |points|);
    OthersSumIsSum(rackValues, active, |rackValues|);
    assert d[..|d|] == d && points[..|points|] == points && rackValues[..|rackValues|] == rackValues;
  }

  /** After six consecutive passes the total drops by the value of all racks. */
  lemma PassEndRemovesRackValues(points: seq<int>, rackValues: seq<int>, active: int, consecutivePass: int)
    requires |points| == |rackValues| && 0 <= active < |points|
    requires consecutivePass >= MaxConsecutivePass
    ensures Sum(Deduction(points, rackValues, active, consecutivePass)) == Sum(points) - Sum(rackValues)
  {
    var d := Deduction(points, rackValues, active, consecutivePass);
    DeductionPrefixSum(points, rackValues, active, consecutivePass, |points|);
    assert d[..|d|] == d && points[..|points|] == points && rackValues[..|rackValues|] == rackValues;
  }

  function PointsOf(players: seq<Player>): (r: seq<int>)
    reads set i | 0 <= i < |players| :: players[i]
    ensures |r| == |players| && forall i :: 0 <= i < |players| ==> r[i] == players[i].points
  {
    seq(|players|, i requires 0 <= i < |players| reads set j | 0 <= j < |players| :: players[j] => players[i].points)
  }

  function RackValuesOf(players: seq<Player>): (r: seq<int>)
    reads set i | 0 <= i < |players| :: players[i]
    ensures |r| == |players| && forall i :: 0 <= i < |players| ==> r[i] == RackValue(players[i].letterRack)
  {
    seq(|players|, i requires 0 <= i < |players| reads set j | 0 <= j < |players| :: players[j] => RackValue(players[i].letterRack))
  }

  predicate DistinctPlayers(players: seq<Player>) {
    forall i, j :: 0 <= i < j < |players| ==> players[i] != players[j]
  }

  /** `endOfGamePointdeduction` on the game's players, active player index and
      pass counter. */
  method EndOfGamePointDeduction(players: seq<Player>, activePlayerIndex: int, consecutivePass: int)
    requires 0 <= activePlayerIndex < |players| && DistinctPlayers(players)
    modifies set i | 0 <= i < |players| :: players[i]
    ensures PointsOf(players) ==
      Deduction(old(PointsOf(players)), old(RackValuesOf(players)), activePlayerIndex, consecutivePass)
    ensures forall i :: 0 <= i < |players| ==>
      players[i].letterRack == old(players[i].letterRack) && players[i].name == old(players[i].name)
  {
    ghost var points := PointsOf(players);
    ghost var rackValues := RackValuesOf(players);
    if consecutivePass >= MaxConsecutivePass {
      DeductEveryRack(players);
    } else {
      TransferRacksToActive(players, activePlayerIndex);
    }
    ghost var d := Deduction(points, rackValues, activePlayerIndex, consecutivePass);
    assert forall k :: 0 <= k < |players| ==> PointsOf(players)[k] == d[k];
  }

  /** The six-pass branch: every player loses the value of their rack. */
  method DeductEveryRack(players: seq<Player>)
    requires DistinctPlayers(players)
    modifies set i | 0 <= i < |players| :: players[i]
    ensures forall k :: 0 <= k < |players| ==>
      players[k].letterRack == old(players[k].letterRack) && players[k].name == old(players[k].name)
      && players[k].points == old(players[k].points) - RackValue(old(players[k].letterRack))
  {
    for i := 0 to |players|
      invariant forall k :: 0 <= k < |players| ==>
        players[k].letterRack == old(players[k].letterRack) && players[k].name == old(players[k].name)
        && players[k].points == old(players[k].points) - (if k < i then RackValue(old(players[k].letterRack)) else 0)
    {
      var rackPoints := CalculatePointsOfRack(players[i]);
      players[i].points := players[i].points - rackPoints;
    }
  }

  /** The other branch: each other player's rack value moves to the active player. */
  method TransferRacksToActive(players: seq<Player>, activePlayerIndex: int)
    requires 0 <= activePlayerIndex < |players| && DistinctPlayers(players)
    modifies set i | 0 <= i < |players| :: players[i]
    ensures forall k :: 0 <= k < |players| ==>
      players[k].letterRack == old(players[k].letterRack) && players[k].name == old(players[k].name)
    ensures forall k :: 0 <= k < |players| && k != activePlayerIndex ==>
      players[k].points == old(players[k].points) - RackValue(old(players[k].letterRack))
    ensures players[activePlayerIndex].points ==
      old(players[activePlayerIndex].points) + OthersSum(old(RackValuesOf(players)), activePlayerIndex, |players|)
  {
    ghost var start := Standing(PointsOf(players), RackValuesOf(players), RacksOf(players), NamesOf(players));
    assert TransferredUpTo(players, activePlayerIndex, start, 0);
    var activePlayer := players[activePlayerIndex];
    for i := 0 to |players|
      invariant TransferredUpTo(players, activePlayerIndex, start, i)
    {
      TransferStep(players, activePlayerIndex, activePlayer, i, start);
    }
    TransferredAll(players, activePlayerIndex, start);
  }

  lemma TransferredAll(players: seq<Player>, active: int, start: Standing)
    requires TransferredUpTo(players, active, start, |players|)
    ensures forall k :: 0 <= k < |players| ==>
      players[k].letterRack == start.racks[k] && players[k].name == start.names[k]
    ensures forall k :: 0 <= k < |players| && k != active ==>
      players[k].points == start.points[k] - RackValue(start.racks[k])
    ensures players[active].points == start.points[active] + OthersSum(start.rackValues, active, |players|)
  {
  }

  /** The players' points, rack values, racks and names before the transfer. */
  datatype Standing = Standing(points: seq<int>, rackValues: seq<int>, racks: seq<seq<Letter>>, names: seq<string>)

  /** The state of the transfer once the first n players have been through
      it: racks and names untouched, each of those players other than the
      active one down by their rack value, and the active player up by the
      sum of those values. */
  ghost predicate TransferredUpTo(players: seq<Player>, active: int, start: Standing, n: int)
    reads set i | 0 <= i < |players| :: players[i]
  {
    && 0 <= active < |players| && 0 <= n <= |players| && DistinctPlayers(players)
    && |start.points| == |start.rackValues| == |start.racks| == |start.names| == |players|
    && (forall k :: 0 <= k < |players| ==> start.rackValues[k] == RackValue(start.racks[k]))
    && (forall k :: 0 <= k < |players| ==> players[k].letterRack == start.racks[k] && players[k].name == start.names[k])
    && (forall k :: 0 <= k < |players| && k != active ==>
          players[k].points == start.points[k] - (if k < n then start.rackValues[k] else 0))
    && players[active].points == start.points[active] + OthersSum(start.rackValues, active, n)
  }

  /** One pass of the transfer loop: player i, unless it is the active
      player, hands the value of its rack to the active player. */
  method TransferStep(players: seq<Player>, activePlayerIndex: int, activePlayer: Player, i: int, ghost start: Standing)
    requires 0 <= i < |players| && TransferredUpTo(players, activePlayerIndex, start, i)
    requires activePlayer == players[activePlayerIndex]
    modifies players[activePlayerIndex], players[i]
    ensures TransferredUpTo(players, activePlayerIndex, start, i + 1)
  {
    assert (activePlayer != players[i]) == (i != activePlayerIndex);
    if activePlayer != players[i] {
      var player := players[i];
      var gained := CalculatePointsOfRack(player);
      activePlayer.points := activePlayer.points + gained;
      var lost := CalculatePointsOfRack(player);
      player.points := player.points - lost;
    }
  }

  function RacksOf(players: seq<Player>): (r: seq<seq<Letter>>)
    reads set i | 0 <= i < |players| :: players[i]
    ensures |r| == |players| && forall i :: 0 <= i < |players| ==> r[i] == players[i].letterRack
  {
    seq(|players|, i requires 0 <= i < |players| reads set j | 0 <= j < |players| :: players[j] => players[i].letterRack)
  }

  function NamesOf(players: seq<Player>): (r: seq<string>)
    reads set i | 0 <= i < |players| :: players[i]
    ensures |r| == |players| && forall i :: 0 <= i < |players| ==> r[i] == players[i].name
  {
    seq(|players|, i requires 0 <= i < |players| reads set j | 0 <= j < |players| :: players[j] => players[i].name)
  }

  /** Six passes with racks worth 10 and 4: each player loses their own rack's
      value and nothing moves to the active player. */
  lemma SixPassesWithRacksTenAndFour(p0: int, p1: int, active: int)
    requires 0 <= active < 2
    ensures Deduction([p0, p1], [10, 4], active, MaxConsecutivePass) == [p0 - 10, p1 - 4]
  {
  }

  /** The same racks when the game ends otherwise: the active first player
      collects the other player's 4 points. */
  lemma EmptiedRackCollectsTheOthers(p0: int, p1: int)
    ensures Deduction([p0, p1], [0, 4], 0, 0) == [p0 + 4, p1 - 4]
  {
    assert OthersSum([0, 4], 0, 2) == 4;
  }
}
