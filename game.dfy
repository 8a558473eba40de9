/** The turn loop of a solo game: the letter bag, the board grid, the players,
    whose turn it is, the run of consecutive passes, the end-of-game test, the
    end-of-game deduction and the choice of winners. */
module Games {
  import opened Common
  import opened LetterBags
  import PointCalculator

  /** The pass counter after an action: a pass extends the run, anything else resets it. */
  function PassesAfter(consecutivePass: int, action: Action): int {
    if action.Pass? then consecutivePass + 1 else 0
  }

  /** The pass counter after a sequence of actions. */
  function PassesAfterAll(consecutivePass: int, actions: seq<Action>): int {
    if actions == [] then consecutivePass
    else PassesAfter(PassesAfterAll(consecutivePass, actions[..|actions| - 1]), actions[|actions| - 1])
  }

  /** After a run of passes ending the sequence, the counter is at least the run's length. */
  lemma {:induction false} PassRunCounts(consecutivePass: int, actions: seq<Action>, run: nat)
    requires consecutivePass >= 0 && run <= |actions|
    requires forall i :: |actions| - run <= i < |actions| ==> actions[i].Pass?
    ensures PassesAfterAll(consecutivePass, actions) >= run
  {
    if run > 0 {
      PassRunCounts(consecutivePass, actions[..|actions| - 1], run - 1);
    } else if actions != [] {
      PassesNonNegative(consecutivePass, actions);
    }
  }

  lemma {:induction false} PassesNonNegative(consecutivePass: int, actions: seq<Action>)
    requires consecutivePass >= 0
    ensures PassesAfterAll(consecutivePass, actions) >= 0
  {
    if actions != [] {
      PassesNonNegative(consecutivePass, actions[..|actions| - 1]);
    }
  }

  /** Any non-pass action resets the counter, whatever came before. */
  lemma NonPassResets(consecutivePass: int, actions: seq<Action>, action: Action)
    requires !action.Pass?
    ensures PassesAfterAll(consecutivePass, actions + [action]) == 0
  {
    assert (actions + [action])[..|actions|] == actions;
  }

  /** `isEndOfGame`: an empty bag together with a player whose rack is empty,
      or six consecutive passes. */
  predicate EndOfGame(bagSize: int, rackSizes: seq<int>, consecutivePass: int) {
    (bagSize == 0 && exists i :: 0 <= i < |rackSizes| && rackSizes[i] == 0)
    || consecutivePass >= MaxConsecutivePass
  }

  /** Six passes in a row end the game whatever the bag and the racks hold;
      while the bag is not empty, nothing else does. */
  lemma SixPassesEndTheGame(bagSize: int, rackSizes: seq<int>, consecutivePass: int, actions: seq<Action>)
    requires consecutivePass >= 0 && |actions| >= MaxConsecutivePass
    requires forall i :: |actions| - MaxConsecutivePass <= i < |actions| ==> actions[i].Pass?
    ensures EndOfGame(bagSize, rackSizes, PassesAfterAll(consecutivePass, actions))
  {
    PassRunCounts(consecutivePass, actions, MaxConsecutivePass);
  }

  lemma NonEmptyBagEndsOnlyByPasses(bagSize: int, rackSizes: seq<int>, consecutivePass: int)
    requires bagSize != 0
    ensures EndOfGame(bagSize, rackSizes, consecutivePass) <==> consecutivePass >= MaxConsecutivePass
  {
  }

  /** The best score, but never below -1: `getWinner` starts from -1. */
  function Highest(points: seq<int>): int {
    if points == [] then -1
    else
      var h := Highest(points[..|points| - 1]);
      if points[|points| - 1] > h then points[|points| - 1] else h
  }

  /** The indices, in order, of the players that `getWinner` returns. */
  function WinnerIndices(points: seq<int>, n: nat): seq<int>
    requires n <= |points|
  {
    if n == 0 then []
    else if points[n - 1] == Highest(points) then WinnerIndices(points, n - 1) + [n - 1]
    else WinnerIndices(points, n - 1)
  }

  lemma {:induction false} HighestBounds(points: seq<int>)
    ensures Highest(points) >= -1
    ensures forall i :: 0 <= i < |points| ==> points[i] <= Highest(points)
    ensures Highest(points) == -1 || exists i :: 0 <= i < |points| && points[i] == Highest(points)
  {
    if points != [] {
      var init := points[..|points| - 1];
      HighestBounds(init);
      assert forall i :: 0 <= i < |init| ==> points[i] == init[i];
    }
  }

  lemma {:induction false} WinnerIndicesMembers(points: seq<int>, n: nat)
    requires n <= |points|
    ensures forall k :: 0 <= k < |WinnerIndices(points, n)| ==> 0 <= WinnerIndices(points, n)[k] < n
    ensures forall i :: 0 <= i < n ==> (i in WinnerIndices(points, n) <==> points[i] == Highest(points))
    ensures forall k, l :: 0 <= k < l < |WinnerIndices(points, n)| ==>
      WinnerIndices(points, n)[k] < WinnerIndices(points, n)[l]
  {
    if n > 0 {
      WinnerIndicesMembers(points, n - 1);
    }
  }

  /** A player is a winner exactly when no score beats theirs and theirs is
      at least -1; with every score below -1 there is no winner. */
  lemma WinnersHaveTheBestScore(points: seq<int>)
    ensures forall i :: 0 <= i < |points| ==>
      (i in WinnerIndices(points, |points|) <==>
        points[i] >= -1 && forall j :: 0 <= j < |points| ==> points[j] <= points[i])
    ensures (forall i :: 0 <= i < |points| ==> points[i] < -1) ==> WinnerIndices(points, |points|) == []
  {
    HighestBounds(points);
    WinnerIndicesMembers(points, |points|);
    if WinnerIndices(points, |points|) != [] {
      var i := WinnerIndices(points, |points|)[0];
      assert i in WinnerIndices(points, |points|) && points[i] >= -1;
    }
  }

  function Select(players: seq<Player>, indices: seq<int>): (r: seq<Player>)
    requires forall k :: 0 <= k < |indices| ==> 0 <= indices[k] < |players|
    ensures |r| == |indices| && forall k :: 0 <= k < |indices| ==> r[k] == players[indices[k]]
  {
    seq(|indices|, k requires 0 <= k < |indices| => players[indices[k]])
  }

  lemma SelectAppend(players: seq<Player>, indices: seq<int>, i: int)
    requires forall k :: 0 <= k < |indices| ==> 0 <= indices[k] < |players|
    requires 0 <= i < |players|
    ensures Select(players, indices + [i]) == Select(players, indices) + [players[i]]
    ensures Select(players, [i]) == [players[i]]
  {
  }

  /** The number of letters on each player's rack. */
  function RackSizes(players: seq<Player>): (r: seq<int>)
    reads set i | 0 <= i < |players| :: players[i]
    ensures |r| == |players| && forall i :: 0 <= i < |players| ==> r[i] == |players[i].letterRack|
  {
    seq(|players|, i requires 0 <= i < |players| reads set j | 0 <= j < |players| :: players[j] =>
      |players[i].letterRack|)
  }

  /** Each player's rack, in table order. */
  function Racks(players: seq<Player>): (r: seq<seq<Letter>>)
    reads set i | 0 <= i < |players| :: players[i]
    ensures |r| == |players| && forall i :: 0 <= i < |players| ==> r[i] == players[i].letterRack
  {
    seq(|players|, i requires 0 <= i < |players| reads set j | 0 <= j < |players| :: players[j] =>
      players[i].letterRack)
  }

  /** Each player's name, in table order. */
  function Names(players: seq<Player>): (r: seq<string>)
    reads set i | 0 <= i < |players| :: players[i]
    ensures |r| == |players| && forall i :: 0 <= i < |players| ==> r[i] == players[i].name
  {
    seq(|players|, i requires 0 <= i < |players| reads set j | 0 <= j < |players| :: players[j] =>
      players[i].name)
  }

  /** The letters of several racks, one rack after another. */
  function Concat(racks: seq<seq<Letter>>): seq<Letter> {
    if racks == [] then [] else Concat(racks[..|racks| - 1]) + racks[|racks| - 1]
  }

  lemma ConcatSnoc(racks: seq<seq<Letter>>, rack: seq<Letter>)
    ensures Concat(racks + [rack]) == Concat(racks) + rack
  {
    assert (racks + [rack])[..|racks|] == racks;
  }

  class Game {
    const letterBag: LetterBag
    var players: seq<Player>
    const grid: array2<Tile>
    var activePlayerIndex: int
    var consecutivePass: int
    var turnNumber: int
    const timePerTurn: int

    predicate Valid()
      reads this
    {
      grid.Length0 == BoardDimension && grid.Length1 == BoardDimension
      && 0 <= activePlayerIndex && (|players| > 0 ==> activePlayerIndex < |players|)
      && PointCalculator.DistinctPlayers(players)
    }

    /** A game on a board whose tiles are given, with a new bag and no players yet. */
    constructor (timePerTurn: int, board: Grid)
      requires ValidGrid(board)
      ensures Valid() && fresh(letterBag) && fresh(grid)
      ensures players == [] && consecutivePass == 0 && turnNumber == 0 && activePlayerIndex == 0
      ensures letterBag.gameLetters == InitialLetters()
      ensures Snapshot(grid) == board
      ensures this.timePerTurn == timePerTurn
    {
      this.timePerTurn := timePerTurn;
      var bag := new LetterBag();
      letterBag := bag;
      players := [];
      grid := new Tile[BoardDimension, BoardDimension]((y: int, x: int) requires 0 <= y < BoardDimension && 0 <= x < BoardDimension => board[y][x]);
      activePlayerIndex := 0;
      consecutivePass := 0;
      turnNumber := 0;
      new;
      assert forall y :: 0 <= y < BoardDimension ==> Snapshot(grid)[y] == board[y];
    }

    /** `nextPlayer`: the turn passes round the table. */
    method NextPlayer()
      requires Valid() && |players| > 0
      modifies this
      ensures players == old(players) && consecutivePass == old(consecutivePass) && turnNumber == old(turnNumber)
      ensures Valid()
      ensures activePlayerIndex == (old(activePlayerIndex) + 1) % |players|
      ensures activePlayerIndex == if old(activePlayerIndex) == |players| - 1 then 0 else old(activePlayerIndex) + 1
    {
      activePlayerIndex := (activePlayerIndex + 1) % |players|;
    }

    /** `getActivePlayer`. */
    function ActivePlayer(): (p: Player)
      reads this
      requires Valid() && |players| > 0
      ensures p in players
    {
      players[activePlayerIndex]
    }

    /** `isEndOfGame`. */
    method IsEndOfGame() returns (ended: bool)
      ensures ended == EndOfGame(|letterBag.gameLetters|, RackSizes(players), consecutivePass)
    {
      if |letterBag.gameLetters| == 0 {
        for i := 0 to |players|
          invariant forall k :: 0 <= k < i ==> |players[k].letterRack| != 0
        {
          if |players[i].letterRack| == 0 {
            assert RackSizes(players)[i] == 0;
            return true;
          }
        }
      }
      if consecutivePass >= MaxConsecutivePass {
        return true;
      }
      return false;
    }

    /** `doAction`: the pass counter. */
    method DoAction(action: Action)
      requires Valid()
      modifies this
      ensures Valid()
      ensures consecutivePass == PassesAfter(old(consecutivePass), action)
      ensures action.Pass? ==> consecutivePass == old(consecutivePass) + 1
      ensures !action.Pass? ==> consecutivePass == 0
      ensures players == old(players) && activePlayerIndex == old(activePlayerIndex) && turnNumber == old(turnNumber)
      ensures PointCalculator.PointsOf(players) == old(PointCalculator.PointsOf(players))
      ensures PointCalculator.RackValuesOf(players) == old(PointCalculator.RackValuesOf(players))
      ensures RackSizes(players) == old(RackSizes(players))
    {
      if action.Pass? {
        consecutivePass := consecutivePass + 1;
      } else {
        consecutivePass := 0;
      }
    }

    /** `pickFirstPlayer`: a uniformly random index, modelled as any index. */
    method PickFirstPlayer()
      requires Valid()
      modifies this
      ensures Valid()
      ensures |players| > 0 ==> 0 <= activePlayerIndex < |players|
      ensures |players| == 0 ==> activePlayerIndex == 0
      ensures players == old(players) && consecutivePass == old(consecutivePass) && turnNumber == old(turnNumber)
    {
      var max := |players|;
      if max == 0 {
        activePlayerIndex := 0;
      } else {
        var firstPlayer :| 0 <= firstPlayer < max;
        activePlayerIndex := firstPlayer;
      }
    }

    /** `drawGameLetters`: every player's rack becomes seven letters drawn from
      the bag; false when the bag runs short (the source throws). */
    method DrawGameLetters() returns (ok: bool)
      requires Valid()
      modifies letterBag, set i | 0 <= i < |players| :: players[i]
      ensures ok <==> |old(letterBag.gameLetters)| >= PlayerLetterCount * |players|
      ensures ok ==> forall i :: 0 <= i < |players| ==> |players[i].letterRack| == PlayerLetterCount
      ensures ok ==> |letterBag.gameLetters| == |old(letterBag.gameLetters)| - PlayerLetterCount * |players|
      ensures ok ==> multiset(Concat(Racks(players))) + multiset(letterBag.gameLetters)
                     == multiset(old(letterBag.gameLetters))
      ensures forall i :: 0 <= i < |players| ==>
        players[i].points == old(players[i].points) && players[i].name == old(players[i].name)
    {
      ghost var start := |letterBag.gameLetters|;
      ghost var dealt: seq<seq<Letter>> := [];
      ok := true;
      for i := 0 to |players|
        invariant ok ==> |letterBag.gameLetters| == start - PlayerLetterCount * i
        invariant !ok ==> start < PlayerLetterCount * |players|
        invariant ok ==> |dealt| == i
        invariant ok ==> forall k :: 0 <= k < i ==> players[k].letterRack == dealt[k] && |dealt[k]| == PlayerLetterCount
        invariant ok ==> multiset(Concat(dealt)) + multiset(letterBag.gameLetters) == multiset(old(letterBag.gameLetters))
        invariant forall k :: 0 <= k < |players| ==>
          players[k].points == old(players[k].points) && players[k].name == old(players[k].name)
      {
        var dealtOk, rack := DealRack(players[i]);
        if !dealtOk {
          ok := false;
          break;
        }
        ConcatSnoc(dealt, rack);
        dealt := dealt + [rack];
      }
      if ok {
        assert dealt == Racks(players);
      }
    }

    /** One round of `drawGameLetters`: the player's rack becomes seven
      letters drawn from the bag. */
    method DealRack(player: Player) returns (ok: bool, ghost rack: seq<Letter>)
      modifies letterBag, player
      ensures ok <==> |old(letterBag.gameLetters)| >= PlayerLetterCount
      ensures !ok ==> letterBag.gameLetters == old(letterBag.gameLetters) && player.letterRack == old(player.letterRack)
      ensures ok ==> player.letterRack == rack && |rack| == PlayerLetterCount
      ensures ok ==> |letterBag.gameLetters| == |old(letterBag.gameLetters)| - PlayerLetterCount
      ensures ok ==> multiset(rack) + multiset(letterBag.gameLetters) == multiset(old(letterBag.gameLetters))
      ensures player.points == old(player.points) && player.name == old(player.name)
    {
      var drawn := letterBag.DrawEmptyRackLetters();
      if drawn.None? {
        return false, [];
      }
      player.letterRack := drawn.value;
      return true, drawn.value;
    }

    /** `startTurn`: counts the turn; the timer and the player's action stream are left out. */
    method StartTurn()
      modifies this
      ensures turnNumber == old(turnNumber) + 1
      ensures players == old(players) && activePlayerIndex == old(activePlayerIndex)
      ensures consecutivePass == old(consecutivePass)
    {
      turnNumber := turnNumber + 1;
    }

    /** `start`: deal the racks, pick who begins, open the first turn. */
    method Start() returns (ok: bool)
      requires Valid()
      modifies this, letterBag, set i | 0 <= i < |players| :: players[i]
      ensures Valid() && players == old(players)
      ensures ok <==> |old(letterBag.gameLetters)| >= PlayerLetterCount * |players|
      ensures ok ==> forall i :: 0 <= i < |players| ==> |players[i].letterRack| == PlayerLetterCount
      ensures ok ==> multiset(Concat(Racks(players))) + multiset(letterBag.gameLetters)
                     == multiset(old(letterBag.gameLetters))
      ensures ok ==> turnNumber == old(turnNumber) + 1
      ensures ok ==> |players| > 0 ==> 0 <= activePlayerIndex < |players|
      ensures forall i :: 0 <= i < |players| ==>
        players[i].points == old(players[i].points) && players[i].name == old(players[i].name)
    {
      ok := DrawGameLetters();
      if !ok {
        return;
      }
      PickFirstPlayer();
      StartTurn();
    }

    /** `getWinner`: the players with the best score, in table order, where
      the best score starts at -1. */
    method GetWinner() returns (winners: seq<Player>)
      ensures forall k :: 0 <= k < |WinnerIndices(PointCalculator.PointsOf(players), |players|)| ==>
        0 <= WinnerIndices(PointCalculator.PointsOf(players), |players|)[k] < |players|
      ensures winners == Select(players, WinnerIndices(PointCalculator.PointsOf(players), |players|))
    {
      ghost var points := PointCalculator.PointsOf(players);
      WinnerIndicesMembers(points, |players|);
      var highestScore := -1;
      winners := [];
      for i := 0 to |players|
        invariant highestScore == Highest(points[..i])
        invariant forall k :: 0 <= k < |WinnersUpTo(points, i)| ==> 0 <= WinnersUpTo(points, i)[k] < i
        invariant winners == Select(players, WinnersUpTo(points, i))
      {
        assert points[..i + 1][..i] == points[..i];
        WinnersUpToStep(points, i);
        SelectAppend(players, WinnersUpTo(points, i), i);
        var player := players[i];
        if player.points == highestScore {
          winners := winners + [player];
        }
        if player.points > highestScore {
          highestScore := player.points;
          winners := [player];
        }
      }
      assert points[..|players|] == points;
      WinnersUpToAll(points);
    }

    /** `onEndOfGame`: the end-of-game deduction on every player; the list
      of winners it computes is only logged, so it is left out. */
    method OnEndOfGame()
      requires Valid() && |players| > 0
      modifies set i | 0 <= i < |players| :: players[i]
      ensures PointCalculator.PointsOf(players) ==
        PointCalculator.Deduction(old(PointCalculator.PointsOf(players)),
                                  old(PointCalculator.RackValuesOf(players)), activePlayerIndex, consecutivePass)
      ensures Racks(players) == old(Racks(players)) && Names(players) == old(Names(players))
    {
      PointCalculator.EndOfGamePointDeduction(players, activePlayerIndex, consecutivePass);
      assert Racks(players) == old(Racks(players));
      assert Names(players) == old(Names(players));
    }

    /** `endOfTurn`: records the action in the pass counter, then either ends
      the game with the end-of-game deduction or hands the turn on. */
    method EndOfTurn(action: Action) returns (gameOver: bool)
      requires Valid() && |players| > 0
      modifies this, set i | 0 <= i < |players| :: players[i]
      ensures Valid() && players == old(players)
      ensures consecutivePass == PassesAfter(old(consecutivePass), action)
      ensures gameOver == EndOfGame(|letterBag.gameLetters|, old(RackSizes(players)), consecutivePass)
      ensures gameOver ==> activePlayerIndex == old(activePlayerIndex)
      ensures gameOver ==>
        (PointCalculator.PointsOf(players) ==
         PointCalculator.Deduction(old(PointCalculator.PointsOf(players)),
                                   old(PointCalculator.RackValuesOf(players)), activePlayerIndex, consecutivePass))
      ensures !gameOver ==> activePlayerIndex == (old(activePlayerIndex) + 1) % |players|
      ensures !gameOver ==> turnNumber == old(turnNumber) + 1
      ensures !gameOver ==> PointCalculator.PointsOf(players) == old(PointCalculator.PointsOf(players))
      ensures gameOver ==> turnNumber == old(turnNumber)
      ensures Racks(players) == old(Racks(players)) && Names(players) == old(Names(players))
    {
      DoAction(action);
      gameOver := FinishTurn();
    }

    /** The part of `endOfTurn` after the action is recorded: ends the game
      with the end-of-game deduction, or hands the turn on. */
    method FinishTurn() returns (gameOver: bool)
      requires Valid() && |players| > 0
      modifies this, set i | 0 <= i < |players| :: players[i]
      ensures Valid() && players == old(players) && consecutivePass == old(consecutivePass)
      ensures gameOver == EndOfGame(|letterBag.gameLetters|, old(RackSizes(players)), consecutivePass)
      ensures gameOver ==> activePlayerIndex == old(activePlayerIndex)
      ensures gameOver ==>
        (PointCalculator.PointsOf(players) ==
         PointCalculator.Deduction(old(PointCalculator.PointsOf(players)),
                                   old(PointCalculator.RackValuesOf(players)), activePlayerIndex, consecutivePass))
      ensures !gameOver ==> activePlayerIndex == (old(activePlayerIndex) + 1) % |players|
      ensures !gameOver ==> turnNumber == old(turnNumber) + 1
      ensures !gameOver ==> PointCalculator.PointsOf(players) == old(PointCalculator.PointsOf(players))
      ensures gameOver ==> turnNumber == old(turnNumber)
      ensures Racks(players) == old(Racks(players)) && Names(players) == old(Names(players))
    {
      gameOver := IsEndOfGame();
      if gameOver {
        OnEndOfGame();
      } else {
        HandOn();
      }
    }

    /** The end of a turn that does not end the game: the next player's turn starts. */
    method HandOn()
      requires Valid() && |players| > 0
      modifies this
      ensures Valid() && players == old(players) && consecutivePass == old(consecutivePass)
      ensures activePlayerIndex == (old(activePlayerIndex) + 1) % |players|
      ensures turnNumber == old(turnNumber) + 1
      ensures PointCalculator.PointsOf(players) == old(PointCalculator.PointsOf(players))
      ensures Racks(players) == old(Racks(players)) && Names(players) == old(Names(players))
    {
      NextPlayer();
      StartTurn();
    }
  }

  /** The winners among the first n players, as the loop of `getWinner` sees them. */
  function WinnersUpTo(points: seq<int>, n: nat): seq<int>
    requires n <= |points|
  {
    WinnerIndices(points[..n], n)
  }

  lemma {:induction false} WinnerIndicesPrefixStable(a: seq<int>, b: seq<int>, n: nat)
    requires n <= |a| && n <= |b| && a[..n] == b[..n] && Highest(a) == Highest(b)
    ensures WinnerIndices(a, n) == WinnerIndices(b, n)
  {
    if n > 0 {
      assert a[n - 1] == a[..n][n - 1] && b[n - 1] == b[..n][n - 1];
      assert a[..n - 1] == a[..n][..n - 1] && b[..n - 1] == b[..n][..n - 1];
      WinnerIndicesPrefixStable(a, b, n - 1);
    }
  }

  lemma WinnersUpToStep(points: seq<int>, i: nat)
    requires i < |points|
    ensures WinnersUpTo(points, i + 1) ==
      var h := Highest(points[..i]);
      if points[i] > h then [i]
      else if points[i] == h then WinnersUpTo(points, i) + [i]
      else WinnersUpTo(points, i)
    ensures Highest(points[..i + 1]) ==
      if points[i] > Highest(points[..i]) then points[i] else Highest(points[..i])
  {
    var p := points[..i + 1];
    assert p[..i] == points[..i] && p[i] == points[i];
    var h := Highest(points[..i]);
    HighestBounds(points[..i]);
    if points[i] > h {
      // Nobody before i reaches the new best score.
      NoneReach(p, i, i);
    } else {
      WinnerIndicesPrefixStable(p, points[..i], i);
    }
  }

  lemma {:induction false} NoneReach(p: seq<int>, i: nat, n: nat)
    requires n <= i < |p| && forall k :: 0 <= k < i ==> p[k] < p[i]
    requires Highest(p) == p[i]
    ensures WinnerIndices(p, n) == []
  {
    if n > 0 {
      NoneReach(p, i, n - 1);
    }
  }

  lemma WinnersUpToAll(points: seq<int>)
    ensures WinnersUpTo(points, |points|) == WinnerIndices(points, |points|)
  {
    assert points[..|points|] == points;
  }
}
