/** Performing and reverting a placement: the word's letters go onto the empty
    cells it crosses, the matching letters leave the rack, the formed words are
    scored and the rack is refilled from the bag; a placement that forms no
    valid word is taken back off the board and its letters return to the rack. */
module PlaceLetters {
  import opened Common
  import opened LetterBags
  import PointCalculator
  import Games
  import ActionValidator

  /** The two letter constructors of the letter factory, which this model
      takes as given: a letter for a character, and a blank standing for one. */
  datatype LetterFactory = LetterFactory(createLetter: char -> Letter, createBlankLetter: char -> Letter)

  /** What `perform` leaves behind: the placement scored and the rack refilled,
      the placement scored but the bag too small to refill the rack (the source
      throws there), no valid word, so the placement waits to be reverted, or a
      character aimed off the board, where reading the grid throws part-way
      through the placement. */
  datatype PerformOutcome = Committed(points: int) | DrawFailed(points: int) | RevertPending | Faulted

  /** `isCharUpperCase`: a one-character string in 'A'..'Z'; anything but one
      character is an error. */
  function IsCharUpperCase(s: string): (r: Result<bool>)
    ensures r.Err? <==> |s| != 1
    ensures r.Ok? ==> (r.value <==> 'A' <= s[0] <= 'Z')
  {
    if |s| != 1 then Err("the string given is not a char")
    else Ok(s[0] as int >= 'A' as int && s[0] as int <= 'Z' as int)
  }

  /** The cell of the i-th character: along x for "H", along y for anything else. */
  function Target(p: PlacementSetting, i: int): Vec2 {
    if p.direction == Horizontal then Vec2(p.x + i, p.y) else Vec2(p.x, p.y + i)
  }

  /** Which character of the word would land on cell v. */
  function Offset(p: PlacementSetting, v: Vec2): int {
    if p.direction == Horizontal then v.x - p.x else v.y - p.y
  }

  predicate TargetsOnBoard(word: string, p: PlacementSetting) {
    forall i :: 0 <= i < |word| ==> InBoard(Target(p, i))
  }

  /** The first n characters land on the board. */
  predicate PrefixOnBoard(p: PlacementSetting, n: int) {
    forall i :: 0 <= i < n ==> InBoard(Target(p, i))
  }

  /** How many characters `putLettersOnBoard` gets through from character i:
      it stops at the first one aimed off the board, where reading the grid
      throws. */
  function ReachFrom(word: string, p: PlacementSetting, i: nat): (n: nat)
    requires i <= |word| && PrefixOnBoard(p, i)
    ensures i <= n <= |word| && PrefixOnBoard(p, n)
    ensures n < |word| ==> !InBoard(Target(p, n))
    decreases |word| - i
  {
    if i == |word| || !InBoard(Target(p, i)) then i else ReachFrom(word, p, i + 1)
  }

  /** How many characters `putLettersOnBoard` places or skips before it
      stops: all of them when every target is on the board. */
  function Reach(word: string, p: PlacementSetting): (n: nat)
    ensures n <= |word| && PrefixOnBoard(p, n)
    ensures n < |word| ==> !InBoard(Target(p, n))
  {
    ReachFrom(word, p, 0)
  }

  /** The placement runs to the end of the word exactly when every target is on the board. */
  lemma ReachIff(word: string, p: PlacementSetting)
    ensures Reach(word, p) == |word| <==> TargetsOnBoard(word, p)
  {
  }

  /** `letterToRemove`: an upper-case character is played with a joker. */
  function LetterToRemove(f: LetterFactory, c: char): Letter {
    if IsUpperAscii(c) then f.createLetter(JokerChar) else f.createLetter(c)
  }

  /** `createNewLetter`: an upper-case character becomes a blank standing for
      its lower case, any other character a letter of its lower case. */
  function CreateNewLetter(f: LetterFactory, c: char): Letter {
    if IsUpperAscii(c) then f.createBlankLetter(LowerChar(c)) else f.createLetter(LowerChar(c))
  }

  /** The cells, in word order, among the first n targets that were empty. */
  function AffectedUpTo(g: Grid, word: string, p: PlacementSetting, n: nat): seq<Vec2>
    requires ValidGrid(g) && PrefixOnBoard(p, n) && n <= |word|
  {
    if n == 0 then []
    else
      var last := if CharAt(g, Target(p, n - 1)) == EmptyChar then [Target(p, n - 1)] else [];
      AffectedUpTo(g, word, p, n - 1) + last
  }

  /** The rack letters used, in word order, for the first n characters. */
  function RemovedUpTo(g: Grid, f: LetterFactory, word: string, p: PlacementSetting, n: nat): seq<Letter>
    requires ValidGrid(g) && PrefixOnBoard(p, n) && n <= |word|
  {
    if n == 0 then []
    else
      var last := if CharAt(g, Target(p, n - 1)) == EmptyChar then [LetterToRemove(f, word[n - 1])] else [];
      RemovedUpTo(g, f, word, p, n - 1) + last
  }

  /** Cell (x, y) once the first n characters are placed. */
  function PlacedTile(g: Grid, f: LetterFactory, word: string, p: PlacementSetting, n: nat, x: int, y: int): Tile
    requires ValidGrid(g) && n <= |word| && 0 <= y < BoardDimension && 0 <= x < BoardDimension
  {
    var k := Offset(p, Vec2(x, y));
    if 0 <= k < n && Target(p, k) == Vec2(x, y) && g[y][x].letter.ch == EmptyChar
    then g[y][x].(letter := CreateNewLetter(f, word[k]))
    else g[y][x]
  }

  /** The board after `putLettersOnBoard`: the characters before the first
      one aimed off the board are placed (all of them when none is). */
  function PlacedGrid(g: Grid, f: LetterFactory, word: string, p: PlacementSetting): (r: Grid)
    requires ValidGrid(g)
    ensures ValidGrid(r)
  {
    var n := Reach(word, p);
    seq(BoardDimension, (y: int) requires 0 <= y < BoardDimension =>
      seq(BoardDimension, (x: int) requires 0 <= x < BoardDimension => PlacedTile(g, f, word, p, n, x, y)))
  }

  /** A board whose every cell is the placed one is the placed board. */
  lemma PlacedGridFrom(g: Grid, f: LetterFactory, word: string, p: PlacementSetting, h: Grid)
    requires ValidGrid(g) && ValidGrid(h)
    requires forall y, x :: 0 <= y < BoardDimension && 0 <= x < BoardDimension ==>
      h[y][x] == PlacedTile(g, f, word, p, Reach(word, p), x, y)
    ensures h == PlacedGrid(g, f, word, p)
  {
    assert forall y :: 0 <= y < BoardDimension ==> h[y] == PlacedGrid(g, f, word, p)[y];
  }

  /** The board after `removeLetterFromBoard`: the letters on the given cells
      have their character cleared (their value stays). */
  function RevertedGrid(g: Grid, coords: seq<Vec2>): (r: Grid)
    requires ValidGrid(g)
    ensures ValidGrid(r)
  {
    seq(BoardDimension, (y: int) requires 0 <= y < BoardDimension =>
      seq(BoardDimension, (x: int) requires 0 <= x < BoardDimension =>
        if Vec2(x, y) in coords then g[y][x].(letter := g[y][x].letter.(ch := EmptyChar)) else g[y][x]))
  }

  /** The board with the letter multiplier of the given cells reset to one. */
  function ResetGrid(g: Grid, cells: set<Vec2>): (r: Grid)
    requires ValidGrid(g)
    ensures ValidGrid(r)
  {
    seq(BoardDimension, (y: int) requires 0 <= y < BoardDimension =>
      seq(BoardDimension, (x: int) requires 0 <= x < BoardDimension =>
        if Vec2(x, y) in cells then g[y][x].(letterMultiplier := 1) else g[y][x]))
  }

  // ---------------------------------------------------------------------------
  // Properties of placement and revert.

  lemma TargetOffset(p: PlacementSetting, i: int)
    ensures Offset(p, Target(p, i)) == i
  {
  }

  /** Placing the character n changes at most its own cell. */
  lemma PlacedTileStep(g: Grid, f: LetterFactory, word: string, p: PlacementSetting, n: nat, x: int, y: int)
    requires ValidGrid(g) && n < |word| && 0 <= y < BoardDimension && 0 <= x < BoardDimension
    ensures PlacedTile(g, f, word, p, n + 1, x, y) ==
      if Vec2(x, y) == Target(p, n) && g[y][x].letter.ch == EmptyChar
      then g[y][x].(letter := CreateNewLetter(f, word[n]))
      else PlacedTile(g, f, word, p, n, x, y)
    ensures Vec2(x, y) == Target(p, n) ==> PlacedTile(g, f, word, p, n, x, y) == g[y][x]
  {
    if Vec2(x, y) == Target(p, n) {
      TargetOffset(p, n);
    }
  }

  /** A cell is affected exactly when some character lands on it and it was empty. */
  lemma {:induction false} AffectedMembers(g: Grid, word: string, p: PlacementSetting, n: nat)
    requires ValidGrid(g) && PrefixOnBoard(p, n) && n <= |word|
    ensures forall v :: v in AffectedUpTo(g, word, p, n) <==>
      exists k :: 0 <= k < n && Target(p, k) == v && CharAt(g, v) == EmptyChar
  {
    if n > 0 {
      AffectedMembers(g, word, p, n - 1);
    }
  }

  /** Every rack letter used corresponds to one affected cell, in the same order. */
  lemma {:induction false} RemovedMatchesAffected(g: Grid, f: LetterFactory, word: string, p: PlacementSetting, n: nat)
    requires ValidGrid(g) && PrefixOnBoard(p, n) && n <= |word|
    ensures |RemovedUpTo(g, f, word, p, n)| == |AffectedUpTo(g, word, p, n)|
    ensures forall j :: 0 <= j < |AffectedUpTo(g, word, p, n)| ==>
      var v := AffectedUpTo(g, word, p, n)[j];
      0 <= Offset(p, v) < n && RemovedUpTo(g, f, word, p, n)[j] == LetterToRemove(f, word[Offset(p, v)])
  {
    if n > 0 {
      RemovedMatchesAffected(g, f, word, p, n - 1);
    }
  }

  /** Placing a word and reverting it gives back the board's characters and
      multipliers: the cells the placement filled are empty again, every other
      cell is exactly as it was. */
  lemma PlaceThenRevertRestoresBoard(g: Grid, f: LetterFactory, word: string, p: PlacementSetting)
    requires ValidGrid(g)
    ensures var affected := AffectedUpTo(g, word, p, Reach(word, p));
      var r := RevertedGrid(PlacedGrid(g, f, word, p), affected);
      forall y, x :: 0 <= y < BoardDimension && 0 <= x < BoardDimension ==>
        r[y][x].letter.ch == g[y][x].letter.ch
        && r[y][x].letterMultiplier == g[y][x].letterMultiplier
        && r[y][x].wordMultiplier == g[y][x].wordMultiplier
        && (Vec2(x, y) !in affected ==> r[y][x] == g[y][x])
  {
    var n := Reach(word, p);
    var affected := AffectedUpTo(g, word, p, n);
    var placed := PlacedGrid(g, f, word, p);
    AffectedMembers(g, word, p, n);
    forall y, x | 0 <= y < BoardDimension && 0 <= x < BoardDimension
      ensures Vec2(x, y) !in affected ==> placed[y][x] == g[y][x]
    {
      var k := Offset(p, Vec2(x, y));
      if 0 <= k < n && Target(p, k) == Vec2(x, y) && g[y][x].letter.ch == EmptyChar {
        assert Vec2(x, y) in affected;
      }
    }
  }

  /** Validator and placement step the same way for "H" and "V". */
  lemma DirectionsAgree(p: PlacementSetting, i: int)
    requires p.direction == Horizontal || p.direction == Vertical
    ensures Target(p, i) == ActionValidator.StepAt(p, i)
  {
  }

  /** They part ways on "h": the validator reads it as horizontal, the
      placement as vertical. */
  lemma LowerCaseDirectionDiverges(x: int, y: int)
    ensures ActionValidator.StepAt(PlacementSetting(x, y, "h"), 1) == Vec2(x + 1, y)
    ensures Target(PlacementSetting(x, y, "h"), 1) == Vec2(x, y + 1)
  {
  }

  /** The validator can accept a placement that the board cannot take:
      "bateau" from (4,12) with direction "h" is read as running along row 12
      by the validator, but down column 4 by the placement, which writes rows
      12 to 14 and then throws at row 15. */
  lemma AcceptedPlacementFaults(player: Player, g: Grid, lettersRemaining: int)
    requires ValidGrid(g) && CharAt(g, Vec2(4, 12)) == EmptyChar && ActionValidator.CenterOccupied(g)
    ensures ActionValidator.ActionVerdict(Place(player, "bateau", PlacementSetting(4, 12, "h")), player,
      ActionValidator.BateauRack(), g, lettersRemaining, (v: Vec2) => true) == ActionValidator.Accepted
    ensures Reach("bateau", PlacementSetting(4, 12, "h")) == 3
    ensures !TargetsOnBoard("bateau", PlacementSetting(4, 12, "h"))
  {
    ActionValidator.BateauConsumed();
    var p := PlacementSetting(4, 12, "h");
    var anyCell := (v: Vec2) => true;
    assert !ActionValidator.IsVertical(p.direction);
    assert ActionValidator.WithinBoardLimits("bateau", p);
    assert ActionValidator.LettersVerdict("bateau", p, ActionValidator.BateauRack(), g) == ActionValidator.Accepted;
    assert anyCell(ActionValidator.StepAt(p, 1));
    assert ActionValidator.TouchesNeighbour("bateau", p, anyCell);
    assert !InBoard(Target(p, 3));
    assert ReachFrom("bateau", p, 3) == 3;
  }

  /** A placement the validator accepts, written "H" or "V", can be put on the board. */
  lemma AcceptedPlacementCanBePerformed(action: Action, activePlayer: Player, rack: seq<Letter>, g: Grid,
                                        lettersRemaining: int, hasNeighbour: Vec2 -> bool)
    requires ValidGrid(g) && action.Place?
    requires action.placement.direction == Horizontal || action.placement.direction == Vertical
    requires ActionValidator.ActionVerdict(action, activePlayer, rack, g, lettersRemaining, hasNeighbour)
      == ActionValidator.Accepted
    ensures TargetsOnBoard(action.word, action.placement)
  {
    ActionValidator.AcceptedPlacementFitsBoard(action, activePlayer, rack, g, lettersRemaining, hasNeighbour);
    forall i | 0 <= i < |action.word|
      ensures InBoard(Target(action.placement, i))
    {
      DirectionsAgree(action.placement, i);
    }
  }

  // ---------------------------------------------------------------------------
  // The action.

  class PlaceLetter {
    const player: Player
    const word: string
    const placement: PlacementSetting
    const letterFactory: LetterFactory
    var lettersToRemoveInRack: seq<Letter>
    var affectedCoords: seq<Vec2>

    constructor (player: Player, word: string, placement: PlacementSetting, letterFactory: LetterFactory)
      ensures this.player == player && this.word == word && this.placement == placement
      ensures this.letterFactory == letterFactory
      ensures lettersToRemoveInRack == [] && affectedCoords == []
    {
      this.player := player;
      this.word := word;
      this.placement := placement;
      this.letterFactory := letterFactory;
      lettersToRemoveInRack := [];
      affectedCoords := [];
    }

    /** `putLettersOnBoard`: each character whose cell is empty is placed there,
      and its cell and the rack letter it uses are recorded in word order. A
      character aimed off the board stops the placement there (reading the
      grid throws), leaving the earlier characters placed and recorded. */
    method PutLettersOnBoard(grid: array2<Tile>) returns (ok: bool)
      requires grid.Length0 == BoardDimension && grid.Length1 == BoardDimension
      modifies this, grid
      ensures ok <==> TargetsOnBoard(word, placement)
      ensures Snapshot(grid) == PlacedGrid(old(Snapshot(grid)), letterFactory, word, placement)
      ensures affectedCoords == AffectedUpTo(old(Snapshot(grid)), word, placement, Reach(word, placement))
      ensures lettersToRemoveInRack ==
        RemovedUpTo(old(Snapshot(grid)), letterFactory, word, placement, Reach(word, placement))
    {
      ghost var g: Grid := Snapshot(grid);
      ghost var reach := Reach(word, placement);
      var startX := placement.x;
      var startY := placement.y;
      var direction := placement.direction;
      lettersToRemoveInRack := [];
      affectedCoords := [];
      ok := true;
      for wordIndex := 0 to |word|
        invariant wordIndex <= reach
        invariant forall y, x :: 0 <= y < BoardDimension && 0 <= x < BoardDimension ==>
          grid[y, x] == PlacedTile(g, letterFactory, word, placement, wordIndex, x, y)
        invariant affectedCoords == AffectedUpTo(g, word, placement, wordIndex)
        invariant lettersToRemoveInRack == RemovedUpTo(g, letterFactory, word, placement, wordIndex)
      {
        var x := startX;
        var y := startY;
        if direction == Horizontal {
          x := startX + wordIndex;
        } else {
          y := startY + wordIndex;
        }
        assert Vec2(x, y) == Target(placement, wordIndex);
        if !(0 <= y < BoardDimension && 0 <= x < BoardDimension) {
          ok := false;
          assert wordIndex == reach;
          break;
        }
        PlaceCharacter(grid, g, wordIndex, x, y);
      }
      ReachIff(word, placement);
      PlacedGridFrom(g, letterFactory, word, placement, Snapshot(grid));
    }

    /** One pass of the loop of `putLettersOnBoard`, for a character whose
        cell is on the board: an empty cell receives the new letter, and the
        cell and the rack letter are recorded. */
    method PlaceCharacter(grid: array2<Tile>, ghost g: Grid, wordIndex: nat, x: int, y: int)
      requires grid.Length0 == BoardDimension && grid.Length1 == BoardDimension && ValidGrid(g)
      requires wordIndex < Reach(word, placement) && Vec2(x, y) == Target(placement, wordIndex)
      requires forall y, x :: 0 <= y < BoardDimension && 0 <= x < BoardDimension ==>
        grid[y, x] == PlacedTile(g, letterFactory, word, placement, wordIndex, x, y)
      requires affectedCoords == AffectedUpTo(g, word, placement, wordIndex)
      requires lettersToRemoveInRack == RemovedUpTo(g, letterFactory, word, placement, wordIndex)
      modifies this, grid
      ensures forall y, x :: 0 <= y < BoardDimension && 0 <= x < BoardDimension ==>
        grid[y, x] == PlacedTile(g, letterFactory, word, placement, wordIndex + 1, x, y)
      ensures affectedCoords == AffectedUpTo(g, word, placement, wordIndex + 1)
      ensures lettersToRemoveInRack == RemovedUpTo(g, letterFactory, word, placement, wordIndex + 1)
    {
      PlacedTileStep(g, letterFactory, word, placement, wordIndex, x, y);
      var ch := grid[y, x].letter.ch;
      if ch == EmptyChar {
        var charToCreate := word[wordIndex];
        var letterToRemove := LetterToRemove(letterFactory, charToCreate);
        lettersToRemoveInRack := lettersToRemoveInRack + [letterToRemove];
        var newLetter := CreateNewLetter(letterFactory, charToCreate);
        grid[y, x] := grid[y, x].(letter := newLetter);
        affectedCoords := affectedCoords + [Vec2(x, y)];
      }
      forall y', x' | 0 <= y' < BoardDimension && 0 <= x' < BoardDimension
        ensures grid[y', x'] == PlacedTile(g, letterFactory, word, placement, wordIndex + 1, x', y')
      {
        PlacedTileStep(g, letterFactory, word, placement, wordIndex, x', y');
      }
    }

    /** `removeLetterFromBoard`: clears the character of each affected cell's letter. */
    method RemoveLetterFromBoard(grid: array2<Tile>)
      requires grid.Length0 == BoardDimension && grid.Length1 == BoardDimension
      requires forall i :: 0 <= i < |affectedCoords| ==> InBoard(affectedCoords[i])
      modifies grid
      ensures Snapshot(grid) == RevertedGrid(old(Snapshot(grid)), affectedCoords)
    {
      ghost var g: Grid := Snapshot(grid);
      for i := 0 to |affectedCoords|
        invariant forall y, x :: 0 <= y < BoardDimension && 0 <= x < BoardDimension ==>
          grid[y, x] == if Vec2(x, y) in affectedCoords[..i]
                        then g[y][x].(letter := g[y][x].letter.(ch := EmptyChar)) else g[y][x]
      {
        var coord := affectedCoords[i];
        assert affectedCoords[..i + 1] == affectedCoords[..i] + [coord];
        var x := coord.x;
        var y := coord.y;
        grid[y, x] := grid[y, x].(letter := grid[y, x].letter.(ch := EmptyChar));
      }
      assert affectedCoords[..|affectedCoords|] == affectedCoords;
      assert forall y :: 0 <= y < BoardDimension ==>
        Snapshot(grid)[y] == RevertedGrid(g, affectedCoords)[y];
    }

    /** `giveBackLettersToPlayer`: the used letters go back to the end of the rack. */
    method GiveBackLettersToPlayer()
      modifies player
      ensures player.letterRack == old(player.letterRack) + lettersToRemoveInRack
      ensures player.points == old(player.points) && player.name == old(player.name)
    {
      for i := 0 to |lettersToRemoveInRack|
        invariant player.letterRack == old(player.letterRack) + lettersToRemoveInRack[..i]
        invariant player.points == old(player.points) && player.name == old(player.name)
      {
        assert lettersToRemoveInRack[..i + 1] == lettersToRemoveInRack[..i] + [lettersToRemoveInRack[i]];
        player.letterRack := player.letterRack + [lettersToRemoveInRack[i]];
      }
      assert lettersToRemoveInRack[..|lettersToRemoveInRack|] == lettersToRemoveInRack;
    }

    /** `revert`: takes the placed letters off the board and gives them back. */
    method Revert(game: Games.Game)
      requires game.Valid()
      requires forall i :: 0 <= i < |affectedCoords| ==> InBoard(affectedCoords[i])
      modifies game.grid, player
      ensures Snapshot(game.grid) == RevertedGrid(old(Snapshot(game.grid)), affectedCoords)
      ensures player.letterRack == old(player.letterRack) + lettersToRemoveInRack
      ensures player.points == old(player.points) && player.name == old(player.name)
    {
      RemoveLetterFromBoard(game.grid);
      GiveBackLettersToPlayer();
    }

    /** `drawLettersForPlayer`: as many letters as were used come from the bag
      onto the end of the rack; false when the bag holds fewer (the source throws). */
    method DrawLettersForPlayer(game: Games.Game) returns (ok: bool)
      modifies game.letterBag, player
      ensures ok <==> |lettersToRemoveInRack| <= |old(game.letterBag.gameLetters)|
      ensures !ok ==> game.letterBag.gameLetters == old(game.letterBag.gameLetters)
      ensures !ok ==> player.letterRack == old(player.letterRack)
      ensures ok ==> |player.letterRack| == |old(player.letterRack)| + |lettersToRemoveInRack|
      ensures ok ==> player.letterRack[..|old(player.letterRack)|] == old(player.letterRack)
      ensures ok ==> multiset(player.letterRack[|old(player.letterRack)|..]) + multiset(game.letterBag.gameLetters)
                     == multiset(old(game.letterBag.gameLetters))
      ensures player.points == old(player.points) && player.name == old(player.name)
    {
      var drawnLetters := game.letterBag.DrawGameLetters(|lettersToRemoveInRack|);
      if drawnLetters.None? {
        return false;
      }
      var drawn := drawnLetters.value;
      ghost var rack := player.letterRack;
      ghost var bagLetters := game.letterBag.gameLetters;
      for i := 0 to |drawn|
        invariant player.letterRack == rack + drawn[..i]
        invariant game.letterBag.gameLetters == bagLetters
        invariant player.points == old(player.points) && player.name == old(player.name)
      {
        assert drawn[..i + 1] == drawn[..i] + [drawn[i]];
        player.letterRack := player.letterRack + [drawn[i]];
      }
      assert drawn[..|drawn|] == drawn;
      assert rack == old(player.letterRack);
      assert player.letterRack[|rack|..] == drawn;
      assert multiset(drawn) + multiset(game.letterBag.gameLetters) == multiset(old(game.letterBag.gameLetters));
      return true;
    }

    /** `perform`: the valid words are listed before the letters go down; the
      letters are placed and leave the rack; with at least one valid word the
      turn is scored and the rack refilled, otherwise the placement awaits its
      revert. A character aimed off the board throws during the placement,
      before the rack, the points or the bag are touched. The rack removal is
      the player's own operation, taken as given. */
    method Perform(game: Games.Game, validWordList: seq<seq<Vec2>>,
                   removeLetterFromRack: (seq<Letter>, seq<Letter>) -> seq<Letter>)
      returns (outcome: PerformOutcome)
      requires game.Valid()
      requires PointCalculator.AllOnBoard(validWordList)
      modifies this, game.grid, game.letterBag, player
      ensures var placed := PlacedGrid(old(Snapshot(game.grid)), letterFactory, word, placement);
        Snapshot(game.grid) ==
          if outcome.Committed? || outcome.DrawFailed? then ResetGrid(placed, PointCalculator.Covered(validWordList))
          else placed
      ensures affectedCoords == AffectedUpTo(old(Snapshot(game.grid)), word, placement, Reach(word, placement))
      ensures lettersToRemoveInRack ==
        RemovedUpTo(old(Snapshot(game.grid)), letterFactory, word, placement, Reach(word, placement))
      ensures player.name == old(player.name)
      ensures outcome.Faulted? <==> !TargetsOnBoard(word, placement)
      ensures outcome.Faulted? ==>
        player.letterRack == old(player.letterRack) && player.points == old(player.points)
        && game.letterBag.gameLetters == old(game.letterBag.gameLetters)
      ensures outcome.RevertPending? <==> TargetsOnBoard(word, placement) && |validWordList| == 0
      ensures outcome.RevertPending? ==> player.points == old(player.points)
      ensures outcome.RevertPending? ==>
        player.letterRack == removeLetterFromRack(old(player.letterRack), lettersToRemoveInRack)
      ensures outcome.RevertPending? ==> game.letterBag.gameLetters == old(game.letterBag.gameLetters)
      ensures outcome.Committed? || outcome.DrawFailed? ==>
        var placed := PlacedGrid(old(Snapshot(game.grid)), letterFactory, word, placement);
        var rack := removeLetterFromRack(old(player.letterRack), lettersToRemoveInRack);
        outcome.points == PointCalculator.TurnScore(placed, validWordList, |rack| == 0, |word|)
        && player.points == old(player.points) + outcome.points
        && (outcome.DrawFailed? <==> |lettersToRemoveInRack| > |old(game.letterBag.gameLetters)|)
        && (outcome.DrawFailed? ==>
              (player.letterRack == rack && game.letterBag.gameLetters == old(game.letterBag.gameLetters)))
        && (outcome.Committed? ==>
              (|player.letterRack| == |rack| + |lettersToRemoveInRack|
               && player.letterRack[..|rack|] == rack
               && multiset(player.letterRack[|rack|..]) + multiset(game.letterBag.gameLetters)
                  == multiset(old(game.letterBag.gameLetters))))
    {
      var placedAll := PutLettersOnBoard(game.grid);
      if !placedAll {
        return Faulted;
      }
      ghost var placed := Snapshot(game.grid);
      player.letterRack := removeLetterFromRack(player.letterRack, lettersToRemoveInRack);
      var wordValid := |validWordList| != 0;
      if wordValid {
        var points := PointCalculator.PlaceLetterPointsCalculation(game.grid, player, word, validWordList);
        assert forall y :: 0 <= y < BoardDimension ==>
          Snapshot(game.grid)[y] == ResetGrid(placed, PointCalculator.Covered(validWordList))[y];
        var ok := DrawLettersForPlayer(game);
        if !ok {
          return DrawFailed(points);
        }
        return Committed(points);
      }
      return RevertPending;
    }
  }
}
