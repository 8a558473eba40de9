/** Structural validation of a player's action against a board snapshot: turn
    ownership, board limits, tile compatibility, rack sufficiency with joker
    fallback, the centre rule for the first word and adjacency afterwards, and
    the bag-size rule for exchanges. Validation reads and never writes. */
module ActionValidator {
  import opened Common

  /** Why an action was refused; each case is one of the source's error messages. */
  datatype Reason =
    | WrongTurn
    | Overflow
    | Conflict
    | MissingLetters(hasJoker: bool)
    | NotAdjacent
    | NotOnCenter
    | BagTooSmall
    | ExchangeMissingLetters

  /** Accepted, rejected with a reason, or a fault: the TypeError the source
      raises when it reads a start cell outside the grid. */
  datatype Verdict = Accepted | Rejected(reason: Reason) | Faulted

  // ---------------------------------------------------------------------------
  // Geometry as the validator sees it.

  /** The validator's direction test: the first character, upper-cased, is 'V'. */
  predicate IsVertical(direction: string) {
    |direction| > 0 && UpperChar(direction[0]) == 'V'
  }

  /** The cell reached after `i` steps from the start along the direction. */
  function StepAt(p: PlacementSetting, i: int): Vec2 {
    if IsVertical(p.direction) then Vec2(p.x, p.y + i) else Vec2(p.x + i, p.y)
  }

  /** The coordinate that moves along the direction. */
  function AxisValue(p: PlacementSetting): int {
    if IsVertical(p.direction) then p.y else p.x
  }

  /** `validateBoardsLimits`: start + word length must stay within 0..14. */
  predicate WithinBoardLimits(word: string, p: PlacementSetting) {
    var lastLetterPosition := AxisValue(p) + |word|;
    !(lastLetterPosition > BoardMaxPosition || lastLetterPosition < BoardMinPosition)
  }

  /** The centre cell is among the cells start+1 .. start+|word| along the direction. */
  predicate CoversCenter(word: string, p: PlacementSetting) {
    if IsVertical(p.direction) then
      p.x == CenterPosition && p.y < CenterPosition <= p.y + |word|
    else
      p.y == CenterPosition && p.x < CenterPosition <= p.x + |word|
  }

  /** The closed form agrees with the source's scan, which steps before it
      looks: the centre is hit at one of the steps 1..|word|. */
  lemma CoversCenterIffScanHits(word: string, p: PlacementSetting)
    ensures CoversCenter(word, p) <==>
      exists k :: 1 <= k <= |word| && StepAt(p, k) == Vec2(CenterPosition, CenterPosition)
  {
    if CoversCenter(word, p) {
      var k := if IsVertical(p.direction) then CenterPosition - p.y else CenterPosition - p.x;
      assert StepAt(p, k) == Vec2(CenterPosition, CenterPosition);
    }
  }

  /** Some cell among start+1 .. start+|word| along the direction has a neighbour. */
  predicate TouchesNeighbour(word: string, p: PlacementSetting, hasNeighbour: Vec2 -> bool) {
    exists k :: 1 <= k <= |word| && hasNeighbour(StepAt(p, k))
  }

  // ---------------------------------------------------------------------------
  // Rack sufficiency.

  /** The rack's characters, lower-cased, as a multiset. */
  function FoldRack(rack: seq<Letter>): multiset<char> {
    if rack == [] then multiset{}
    else FoldRack(rack[..|rack| - 1]) + multiset{LowerChar(rack[|rack| - 1].ch)}
  }

  /** Consumes the demanded characters one by one from the pool: an exact
      match first; otherwise a character equal to its own upper case
      (an upper-case letter, the joker, any non-letter) takes a joker. */
  function Consume(pool: multiset<char>, demand: string): bool
    decreases |demand|
  {
    if demand == [] then true
    else if pool[demand[0]] > 0 then Consume(pool - multiset{demand[0]}, demand[1..])
    else if UpperChar(demand[0]) == demand[0] && pool[JokerChar] > 0 then
      Consume(pool - multiset{JokerChar}, demand[1..])
    else false
  }

  function Get(m: map<char, int>, c: char): int {
    if c in m then m[c] else 0
  }

  lemma FoldRackSnoc(rack: seq<Letter>, i: int)
    requires 0 <= i < |rack|
    ensures FoldRack(rack[..i + 1]) == FoldRack(rack[..i]) + multiset{LowerChar(rack[i].ch)}
  {
    assert rack[..i + 1][..i] == rack[..i];
  }

  lemma ConsumeUnfold(pool: multiset<char>, demand: string, i: int)
    requires 0 <= i < |demand|
    ensures Consume(pool, demand[i..]) ==
      if pool[demand[i]] > 0 then Consume(pool - multiset{demand[i]}, demand[i + 1..])
      else if UpperChar(demand[i]) == demand[i] && pool[JokerChar] > 0 then
        Consume(pool - multiset{JokerChar}, demand[i + 1..])
      else false
  {
    assert demand[i..][0] == demand[i] && demand[i..][1..] == demand[i + 1..];
  }

  /** Taking one character from the counts takes it from the pool they stand for. */
  lemma TakeOne(occurrences: map<char, int>, pool: multiset<char>, ch: char)
    requires forall c :: Get(occurrences, c) == pool[c]
    requires pool[ch] > 0
    ensures forall c :: Get(occurrences[ch := Get(occurrences, ch) - 1], c) == (pool - multiset{ch})[c]
  {
  }

  /** Counting one more character adds it to the pool the counts stand for. */
  lemma CountOne(occurrences: map<char, int>, pool: multiset<char>, ch: char)
    requires forall c :: Get(occurrences, c) == pool[c]
    ensures forall c :: Get(occurrences[ch := Get(occurrences, ch) + 1], c) == (pool + multiset{ch})[c]
  {
  }

  /** The first loop of `hasLettersInRack`: occurrences of each lower-cased rack character. */
  method CountRackLetters(rackLetters: seq<Letter>) returns (occurrences: map<char, int>)
    ensures forall c :: Get(occurrences, c) == FoldRack(rackLetters)[c]
  {
    occurrences := map[];
    for i := 0 to |rackLetters|
      invariant forall c :: Get(occurrences, c) == FoldRack(rackLetters[..i])[c]
    {
      FoldRackSnoc(rackLetters, i);
      var lowerChar := LowerChar(rackLetters[i].ch);
      CountOne(occurrences, FoldRack(rackLetters[..i]), lowerChar);
      var occurrence := Get(occurrences, lowerChar);
      if occurrence != 0 {
        occurrences := occurrences[lowerChar := occurrence + 1];
      } else {
        occurrences := occurrences[lowerChar := 1];
      }
    }
    assert rackLetters[..|rackLetters|] == rackLetters;
  }

  /** `hasLettersInRack`: counts the rack's lower-cased characters, then takes
      each demanded character from those counts, falling back on a joker. */
  method HasLettersInRack(rackLetters: seq<Letter>, actionLetters: string) returns (ok: bool)
    ensures ok == Consume(FoldRack(rackLetters), actionLetters)
  {
    var occurrences := CountRackLetters(rackLetters);
    ghost var pool := FoldRack(rackLetters);
    ghost var verdict := Consume(pool, actionLetters);
    assert actionLetters[0..] == actionLetters;
    var i := 0;
    while i < |actionLetters|
      invariant 0 <= i <= |actionLetters|
      invariant forall c :: Get(occurrences, c) == pool[c]
      invariant verdict == Consume(pool, actionLetters[i..])
    {
      ConsumeUnfold(pool, actionLetters, i);
      var ch := actionLetters[i];
      // An absent key and a zero count take the same branch.
      var occurrence := Get(occurrences, ch);
      if occurrence == 0 {
        if UpperChar(ch) == ch {
          occurrence := Get(occurrences, JokerChar);
          ch := JokerChar;
          if occurrence == 0 {
            return false;
          }
        } else {
          return false;
        }
      }
      TakeOne(occurrences, pool, ch);
      occurrences := occurrences[ch := occurrence - 1];
      pool := pool - multiset{ch};
      i := i + 1;
    }
    assert actionLetters[i..] == [];
    return true;
  }

  /** `hasAJoker`: the rack holds a '*' letter. */
  function HasAJoker(rack: seq<Letter>): (r: bool)
    ensures r <==> exists i :: 0 <= i < |rack| && rack[i].ch == JokerChar
  {
    if rack == [] then false
    else if rack[0].ch == JokerChar then true
    else
      assert forall i :: 1 <= i < |rack| ==> rack[i] == rack[1..][i - 1];
      HasAJoker(rack[1..])
  }

  // ---------------------------------------------------------------------------
  // Specification of the whole decision.

  /** The letters the rack must supply, or None on a conflict. Only the start
      cell is read: an empty start cell demands the whole word, an occupied one
      demands nothing but must match every word character case-insensitively. */
  function NeededLetters(word: string, startChar: char): Option<string> {
    var tileChar := LowerChar(startChar);
    if tileChar == EmptyChar then Some(word)
    else if forall i :: 0 <= i < |word| ==> LowerChar(word[i]) == tileChar then Some([])
    else None
  }

  function LettersVerdict(word: string, p: PlacementSetting, rack: seq<Letter>, g: Grid): Verdict
    requires ValidGrid(g)
  {
    if |word| > 0 && !InBoard(Vec2(p.x, p.y)) then Faulted
    else
      var needed := if |word| == 0 then Some([]) else NeededLetters(word, CharAt(g, Vec2(p.x, p.y)));
      match needed
      case None => Rejected(Conflict)
      case Some(letters) =>
        if Consume(FoldRack(rack), letters) then Accepted else Rejected(MissingLetters(HasAJoker(rack)))
  }

  predicate CenterOccupied(g: Grid)
    requires ValidGrid(g)
  {
    CharAt(g, Vec2(CenterPosition, CenterPosition)) != EmptyChar
  }

  function PlaceVerdict(word: string, p: PlacementSetting, rack: seq<Letter>, g: Grid,
                        hasNeighbour: Vec2 -> bool): Verdict
    requires ValidGrid(g)
  {
    if !WithinBoardLimits(word, p) then Rejected(Overflow)
    else if LettersVerdict(word, p, rack, g) != Accepted then LettersVerdict(word, p, rack, g)
    else if CenterOccupied(g) then
      (if TouchesNeighbour(word, p, hasNeighbour) then Accepted else Rejected(NotAdjacent))
    else
      (if CoversCenter(word, p) then Accepted else Rejected(NotOnCenter))
  }

  function ExchangeLetters(letters: seq<Letter>): (s: string)
    ensures |s| == |letters| && forall i :: 0 <= i < |letters| ==> s[i] == LowerChar(letters[i].ch)
  {
    seq(|letters|, i requires 0 <= i < |letters| => LowerChar(letters[i].ch))
  }

  function ExchangeVerdict(letters: seq<Letter>, rack: seq<Letter>, lettersRemaining: int): Verdict {
    if lettersRemaining < RackLetterCount then Rejected(BagTooSmall)
    else if Consume(FoldRack(rack), ExchangeLetters(letters)) then Accepted
    else Rejected(ExchangeMissingLetters)
  }

  /** The decision `validateAction` makes, `rack` being the acting player's rack. */
  function ActionVerdict(action: Action, activePlayer: Player, rack: seq<Letter>, g: Grid,
                         lettersRemaining: int, hasNeighbour: Vec2 -> bool): Verdict
    requires ValidGrid(g)
  {
    if action.player != activePlayer then Rejected(WrongTurn)
    else match action
      case Place(_, word, p) => PlaceVerdict(word, p, rack, g, hasNeighbour)
      case Exchange(_, letters) => ExchangeVerdict(letters, rack, lettersRemaining)
      case Pass(_) => Accepted
  }

  // ---------------------------------------------------------------------------
  // The validator's loops.

  /** `validateLettersCanBePlaced`: walks the word, reading the start cell for
      every character (the loop never advances x or y). */
  method ValidateLettersCanBePlaced(word: string, p: PlacementSetting, rack: seq<Letter>, grid: array2<Tile>)
    returns (v: Verdict)
    requires grid.Length0 == BoardDimension && grid.Length1 == BoardDimension
    ensures v == LettersVerdict(word, p, rack, Snapshot(grid))
  {
    var x := p.x;
    var y := p.y;
    var lettersNeeded := "";
    if |word| > 0 {
      if !InBoard(Vec2(x, y)) {
        return Faulted;
      }
      for letterIndex := 0 to |word|
        invariant var tileChar := LowerChar(grid[y, x].letter.ch);
          if tileChar == EmptyChar then lettersNeeded == word[..letterIndex]
          else lettersNeeded == [] && forall i :: 0 <= i < letterIndex ==> LowerChar(word[i]) == tileChar
      {
        var currentTileChar := LowerChar(grid[y, x].letter.ch);
        var wordCurrentChar := word[letterIndex];
        if currentTileChar == EmptyChar {
          lettersNeeded := lettersNeeded + [wordCurrentChar];
          assert word[..letterIndex + 1] == word[..letterIndex] + [wordCurrentChar];
        } else if LowerChar(wordCurrentChar) != currentTileChar {
          return Rejected(Conflict);
        }
      }
      assert word[..|word|] == word;
    }
    var hasLetters := HasLettersInRack(rack, lettersNeeded);
    if !hasLetters {
      return Rejected(MissingLetters(HasAJoker(rack)));
    }
    return Accepted;
  }

  /** `validateFirstPlaceLetter`: steps first, then tests for the centre. */
  method ValidateFirstPlaceLetter(word: string, p: PlacementSetting) returns (ok: bool)
    ensures ok <==> CoversCenter(word, p)
  {
    var x := p.x;
    var y := p.y;
    var index := 0;
    while index < |word|
      invariant 0 <= index <= |word|
      invariant Vec2(x, y) == StepAt(p, index)
      invariant forall k :: 1 <= k <= index ==> StepAt(p, k) != Vec2(CenterPosition, CenterPosition)
    {
      index := index + 1;
      if IsVertical(p.direction) {
        y := y + 1;
      } else {
        x := x + 1;
      }
      if x == CenterPosition && y == CenterPosition {
        CoversCenterIffScanHits(word, p);
        return true;
      }
    }
    CoversCenterIffScanHits(word, p);
    return false;
  }

  /** `validateOtherPlaceLetter`: steps first, then asks the board for a neighbour. */
  method ValidateOtherPlaceLetter(word: string, p: PlacementSetting, hasNeighbour: Vec2 -> bool) returns (ok: bool)
    ensures ok <==> TouchesNeighbour(word, p, hasNeighbour)
  {
    var x := p.x;
    var y := p.y;
    var index := 0;
    while index < |word|
      invariant 0 <= index <= |word|
      invariant Vec2(x, y) == StepAt(p, index)
      invariant forall k :: 1 <= k <= index ==> !hasNeighbour(StepAt(p, k))
    {
      index := index + 1;
      if IsVertical(p.direction) {
        y := y + 1;
      } else {
        x := x + 1;
      }
      if hasNeighbour(Vec2(x, y)) {
        assert hasNeighbour(StepAt(p, index));
        return true;
      }
    }
    return false;
  }

  /** `validatePlaceLetter`: limits, then letters, then the centre or adjacency rule. */
  method ValidatePlaceLetter(word: string, p: PlacementSetting, rack: seq<Letter>, grid: array2<Tile>,
                             hasNeighbour: Vec2 -> bool) returns (v: Verdict)
    requires grid.Length0 == BoardDimension && grid.Length1 == BoardDimension
    ensures v == PlaceVerdict(word, p, rack, Snapshot(grid), hasNeighbour)
  {
    if !WithinBoardLimits(word, p) {
      return Rejected(Overflow);
    }
    v := ValidateLettersCanBePlaced(word, p, rack, grid);
    if v != Accepted {
      return v;
    }
    var hasCenterTile := grid[CenterPosition, CenterPosition].letter.ch != EmptyChar;
    var ok: bool;
    if hasCenterTile {
      ok := ValidateOtherPlaceLetter(word, p, hasNeighbour);
      v := if ok then Accepted else Rejected(NotAdjacent);
    } else {
      ok := ValidateFirstPlaceLetter(word, p);
      v := if ok then Accepted else Rejected(NotOnCenter);
    }
  }

  /** `validateExchangeLetter`: the bag must hold at least a rack's worth of
      letters, and the rack must hold the lower-cased letters to exchange. */
  method ValidateExchangeLetter(letters: seq<Letter>, rack: seq<Letter>, lettersRemaining: int) returns (v: Verdict)
    ensures v == ExchangeVerdict(letters, rack, lettersRemaining)
  {
    if lettersRemaining < RackLetterCount {
      return Rejected(BagTooSmall);
    }
    var actionLetters := "";
    for i := 0 to |letters|
      invariant actionLetters == ExchangeLetters(letters[..i])
    {
      actionLetters := actionLetters + [LowerChar(letters[i].ch)];
    }
    assert letters[..|letters|] == letters;
    var ok := HasLettersInRack(rack, actionLetters);
    v := if ok then Accepted else Rejected(ExchangeMissingLetters);
  }

  /** `validateAction`: the acting player must be the active one; a pass is
      always accepted. */
  method ValidateAction(action: Action, activePlayer: Player, grid: array2<Tile>, lettersRemaining: int,
                        hasNeighbour: Vec2 -> bool) returns (v: Verdict)
    requires grid.Length0 == BoardDimension && grid.Length1 == BoardDimension
    ensures v == ActionVerdict(action, activePlayer, action.player.letterRack, Snapshot(grid),
                               lettersRemaining, hasNeighbour)
    ensures action.player != activePlayer ==> v == Rejected(WrongTurn)
    ensures action.player == activePlayer && action.Pass? ==> v == Accepted
    ensures action.player == activePlayer && action.Place? && !WithinBoardLimits(action.word, action.placement)
      ==> v == Rejected(Overflow)
    ensures action.player == activePlayer && action.Exchange? && lettersRemaining < RackLetterCount
      ==> v == Rejected(BagTooSmall)
  {
    if action.player != activePlayer {
      return Rejected(WrongTurn);
    }
    match action {
      case Place(player, word, p) =>
        v := ValidatePlaceLetter(word, p, player.letterRack, grid, hasNeighbour);
      case Exchange(player, letters) =>
        v := ValidateExchangeLetter(letters, player.letterRack, lettersRemaining);
      case Pass(_) =>
        v := Accepted;
    }
  }

  // ---------------------------------------------------------------------------
  // Properties of the decision.

  /** A pool built from a rack of letters 'A'..'Z', 'a'..'z' and '*': once
      lower-cased it holds only lower-case letters and jokers. */
  predicate RackPool(pool: multiset<char>) {
    forall c :: c in pool ==> IsLowerAscii(c) || c == JokerChar
  }

  /** How many demanded characters can only be served by a joker from such a pool. */
  function JokerDemand(demand: string): nat {
    if demand == [] then 0
    else (if IsLowerAscii(demand[0]) then 0 else 1) + JokerDemand(demand[1..])
  }

  lemma {:induction false} FoldRackIsRackPool(rack: seq<Letter>)
    requires forall i :: 0 <= i < |rack| ==>
      IsUpperAscii(rack[i].ch) || IsLowerAscii(rack[i].ch) || rack[i].ch == JokerChar
    ensures RackPool(FoldRack(rack))
  {
    if rack != [] {
      FoldRackIsRackPool(rack[..|rack| - 1]);
    }
  }

  /** Every lower-case letter is demanded no more often than the pool holds it. */
  predicate LettersCovered(pool: multiset<char>, demand: string) {
    forall c :: IsLowerAscii(c) ==> multiset(demand)[c] <= pool[c]
  }

  lemma CoveredTakingLetter(pool: multiset<char>, d: char, rest: string)
    requires IsLowerAscii(d) && pool[d] > 0
    ensures LettersCovered(pool, [d] + rest) <==> LettersCovered(pool - multiset{d}, rest)
  {
    assert multiset([d] + rest) == multiset(rest) + multiset{d};
    if LettersCovered(pool - multiset{d}, rest) {
      forall c | IsLowerAscii(c)
        ensures multiset([d] + rest)[c] <= pool[c]
      {
        assert multiset(rest)[c] <= (pool - multiset{d})[c];
      }
    }
  }

  lemma CoveredTakingJoker(pool: multiset<char>, d: char, rest: string)
    requires !IsLowerAscii(d)
    ensures LettersCovered(pool, [d] + rest) <==> LettersCovered(pool - multiset{JokerChar}, rest)
  {
    assert multiset([d] + rest) == multiset(rest) + multiset{d};
    if LettersCovered(pool, rest) {
      forall c | IsLowerAscii(c)
        ensures multiset(rest)[c] <= (pool - multiset{JokerChar})[c]
      {
        assert (pool - multiset{JokerChar})[c] == pool[c];
      }
    }
  }

  /** The joker fallback in closed form: a rack pool covers a demand exactly
      when every lower-case letter is demanded no more often than the pool
      holds it, and the jokers cover every other demanded character. */
  lemma {:induction false} ConsumeIff(pool: multiset<char>, demand: string)
    requires RackPool(pool)
    ensures Consume(pool, demand) <==> LettersCovered(pool, demand) && JokerDemand(demand) <= pool[JokerChar]
  {
    if demand != [] {
      var d := demand[0];
      var rest := demand[1..];
      assert demand == [d] + rest;
      if IsLowerAscii(d) {
        if pool[d] > 0 {
          ConsumeIff(pool - multiset{d}, rest);
          CoveredTakingLetter(pool, d, rest);
        } else {
          assert multiset(demand)[d] > pool[d];
        }
      } else {
        assert pool[d] == 0 || d == JokerChar;
        if pool[JokerChar] > 0 {
          ConsumeIff(pool - multiset{JokerChar}, rest);
          CoveredTakingJoker(pool, d, rest);
        }
      }
    }
  }

  /** An accepted placement is a non-empty word whose start cell and every
      cell along the direction lie on the board. */
  lemma AcceptedPlacementFitsBoard(action: Action, activePlayer: Player, rack: seq<Letter>, g: Grid,
                                   lettersRemaining: int, hasNeighbour: Vec2 -> bool)
    requires ValidGrid(g) && action.Place?
    requires ActionVerdict(action, activePlayer, rack, g, lettersRemaining, hasNeighbour) == Accepted
    ensures action.player == activePlayer
    ensures |action.word| >= 1
    ensures forall i :: 0 <= i < |action.word| ==> InBoard(StepAt(action.placement, i))
  {
    var p := action.placement;
    assert InBoard(Vec2(p.x, p.y));
    assert AxisValue(p) + |action.word| <= BoardMaxPosition;
  }

  /** An accepted placement either fills an empty start cell from the rack,
      or lies on an occupied start cell whose letter matches every character. */
  lemma AcceptedPlacementLetters(word: string, p: PlacementSetting, rack: seq<Letter>, g: Grid,
                                 hasNeighbour: Vec2 -> bool)
    requires ValidGrid(g)
    requires PlaceVerdict(word, p, rack, g, hasNeighbour) == Accepted
    ensures InBoard(Vec2(p.x, p.y))
    ensures var startChar := LowerChar(CharAt(g, Vec2(p.x, p.y)));
      if startChar == EmptyChar then Consume(FoldRack(rack), word)
      else forall i :: 0 <= i < |word| ==> LowerChar(word[i]) == startChar
  {
    assert |word| >= 1;
  }

  /** On an empty centre the word is accepted only if the scan meets (7,7);
      otherwise only if the scan meets a cell with a neighbour. */
  lemma AcceptedPlacementIsAnchored(word: string, p: PlacementSetting, rack: seq<Letter>, g: Grid,
                                    hasNeighbour: Vec2 -> bool)
    requires ValidGrid(g)
    requires PlaceVerdict(word, p, rack, g, hasNeighbour) == Accepted
    ensures !CenterOccupied(g) ==>
      exists k :: 1 <= k <= |word| && StepAt(p, k) == Vec2(CenterPosition, CenterPosition)
    ensures CenterOccupied(g) ==> exists k :: 1 <= k <= |word| && hasNeighbour(StepAt(p, k))
  {
    CoversCenterIffScanHits(word, p);
  }

  /** An accepted exchange leaves at least a rack's worth in the bag and the
      rack holds the lower-cased letters to give back. */
  lemma AcceptedExchange(letters: seq<Letter>, rack: seq<Letter>, lettersRemaining: int)
    requires ExchangeVerdict(letters, rack, lettersRemaining) == Accepted
    requires forall i :: 0 <= i < |rack| ==>
      IsUpperAscii(rack[i].ch) || IsLowerAscii(rack[i].ch) || rack[i].ch == JokerChar
    ensures lettersRemaining >= RackLetterCount
    ensures forall c :: IsLowerAscii(c) ==> multiset(ExchangeLetters(letters))[c] <= FoldRack(rack)[c]
    ensures JokerDemand(ExchangeLetters(letters)) <= FoldRack(rack)[JokerChar]
  {
    FoldRackIsRackPool(rack);
    ConsumeIff(FoldRack(rack), ExchangeLetters(letters));
  }

  /** The limit check counts the start cell twice: a five-letter word from
      column 10, whose letters would fill columns 10..14, is refused. */
  lemma LastColumnOverflows(rack: seq<Letter>, g: Grid, hasNeighbour: Vec2 -> bool)
    requires ValidGrid(g)
    ensures PlaceVerdict("abcde", PlacementSetting(10, 7, "H"), rack, g, hasNeighbour) == Rejected(Overflow)
  {
  }

  /** The first-move scan starts one cell after the start: a word starting
      on the centre itself is refused on an empty board. */
  lemma FirstWordOnCenterStartRefused(rack: seq<Letter>, g: Grid, hasNeighbour: Vec2 -> bool)
    requires ValidGrid(g) && !CenterOccupied(g)
    requires Consume(FoldRack(rack), "ab")
    ensures PlaceVerdict("ab", PlacementSetting(7, 7, "H"), rack, g, hasNeighbour) == Rejected(NotOnCenter)
  {
  }

  /** Only the start cell is compared: a word starting on an 'a' is refused
      as soon as it holds another letter, even where that letter would land
      on an empty cell. */
  lemma StartCellDecidesCompatibility(rack: seq<Letter>, g: Grid, hasNeighbour: Vec2 -> bool)
    requires ValidGrid(g) && CharAt(g, Vec2(3, 7)) == 'a'
    ensures PlaceVerdict("ab", PlacementSetting(3, 7, "H"), rack, g, hasNeighbour) == Rejected(Conflict)
  {
    assert LowerChar("ab"[1]) != 'a';
  }

  /** The rack B, A, T, E, A, U and a joker of the end-to-end example. */
  function BateauRack(): seq<Letter> {
    [Letter('B', 3), Letter('A', 1), Letter('T', 1), Letter('E', 1), Letter('A', 1), Letter('U', 1), Letter('*', 0)]
  }

  lemma BateauRackPool()
    ensures FoldRack(BateauRack()) == multiset{'b', 'a', 't', 'e', 'a', 'u', '*'}
  {
    var rack := BateauRack();
    assert rack[..0] == [] && rack[..7] == rack;
    FoldRackSnoc(rack, 0);
    FoldRackSnoc(rack, 1);
    FoldRackSnoc(rack, 2);
    FoldRackSnoc(rack, 3);
    FoldRackSnoc(rack, 4);
    FoldRackSnoc(rack, 5);
    FoldRackSnoc(rack, 6);
  }

  /** The letters of "bateau" come out of that rack one by one, without the joker. */
  lemma BateauConsumed()
    ensures Consume(FoldRack(BateauRack()), "bateau")
  {
    BateauRackPool();
    var m0 := multiset{'b', 'a', 't', 'e', 'a', 'u', '*'};
    var m1 := m0 - multiset{'b'};
    var m2 := m1 - multiset{'a'};
    var m3 := m2 - multiset{'t'};
    var m4 := m3 - multiset{'e'};
    var m5 := m4 - multiset{'a'};
    assert m0['b'] > 0 && m1['a'] > 0 && m2['t'] > 0 && m3['e'] > 0 && m4['a'] > 0 && m5['u'] > 0;
    assert "bateau"[1..] == "ateau" && "ateau"[1..] == "teau" && "teau"[1..] == "eau";
    assert "eau"[1..] == "au" && "au"[1..] == "u" && "u"[1..] == "";
    assert Consume(m5, "u");
    assert Consume(m4, "au");
    assert Consume(m3, "eau");
    assert Consume(m2, "teau");
    assert Consume(m1, "ateau");
  }

  /** A first word "bateau" from row 7, columns 4 to 9, with that rack is
      accepted on an empty board: it fits, the rack covers it, and the scan
      meets the centre at column 7. */
  lemma BateauAcceptedOnEmptyBoard(player: Player, g: Grid, lettersRemaining: int, hasNeighbour: Vec2 -> bool)
    requires ValidGrid(g) && CharAt(g, Vec2(4, 7)) == EmptyChar && !CenterOccupied(g)
    ensures ActionVerdict(Place(player, "bateau", PlacementSetting(4, 7, "H")), player, BateauRack(), g,
                          lettersRemaining, hasNeighbour) == Accepted
  {
    BateauConsumed();
  }
}
