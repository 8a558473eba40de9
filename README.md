# Scrabble game logic in Dafny

A verified model of the game logic of a two-player Scrabble variant: the
15×15 board of tiles with one-shot letter and word multipliers, the players'
letter racks, the 102-letter bag, the validator that accepts or refuses a
player's action, the placement of a word and its revert, scoring and the
end-of-game deduction, the turn loop, the virtual player's board scan, and
the server's table of live games.

One module per source file:

| module | file | models |
|---|---|---|
| `Common` | common.dfy | constants, ASCII case mapping, `Letter`, `Tile`, `Vec2`, the `Grid` snapshot of the board, `Player`, `Action` |
| `ActionValidator` | action_validator.dfy | `ActionValidatorService` |
| `PlaceLetters` | place_letter.dfy | `PlaceLetter` and `isCharUpperCase` |
| `PointCalculator` | point_calculator.dfy | `PointCalculatorService` |
| `LetterBags` | letter_bag.dfy | `LetterBag` |
| `LetterCreators` | letter_creator.dfy | `LetterCreator` |
| `Games` | game.dfy | `Game` |
| `Bots` | bot.dfy | the helpers of `Bot` |
| `BotCrawling` | bot_crawler.dfy | `BotCrawler` |
| `GameManager` | game_manager.dfy | the server's `GameManagerService` |

How the model is built:

- The board is an `array2<Tile>` indexed `[y, x]`, like the source's
  `grid[y][x]`. Specifications read it through `Snapshot`, a value of type
  `Grid`. A tile is identified by its cell, so a formed word is the sequence
  of cells it runs through.
- Code that changes state in place is a class or a method with `modifies`:
  `Game`, `LetterBag`, `PlaceLetter`, `BotCrawler`, `GameManagerService`,
  `Player`, `Bot`. Each method's `ensures` ties the new state to a
  specification function of the old state. The properties are proved about
  those functions as lemmas.
- The validator is a set of methods whose loops are proved against one pure
  decision, `ActionVerdict`. The properties of validation are lemmas about
  that decision.
- Collaborators whose code is not part of this model are parameters of
  function type:
  - the letter factory (`createLetter`, `createBlankLetter`);
  - `Player.removeLetterFromRack`;
  - `Board.hasNeighbour`;
  - the word searcher `listOfValidWord`;
  - the dictionary's `wordGen` and `regexValidation`;
  - the point estimate `testPlaceLetterCalculation`;
  - the server's action translation.
- Random draws (`Math.random`) are a nondeterministic choice of a value in
  the range the source's expression can produce.
- An exception the source throws is an `Err`, a `None`, a `Faulted` verdict or outcome
  or a `DrawFailed` outcome.

The model follows the code as written. Several behaviours differ from what
a reader would expect:

- Tile compatibility reads only the start cell. The loop of
  `validateLettersCanBePlaced` never moves `x` or `y`. If the start cell is
  empty, the whole word is demanded from the rack. Otherwise every character
  must equal the start cell's letter (`StartCellDecidesCompatibility`).
- The limit check refuses `start + length > 14`, so the last column and the
  last row are never reached (`LastColumnOverflows`).
- The centre and adjacency scans step before they look. They test cells
  `start+1 .. start+length`, so a word that starts on (7,7) is refused on an
  empty board (`FirstWordOnCenterStartRefused`).
- Scoring resets the letter multiplier twice and never resets the word
  multiplier (`PlaceLetterPointsCalculation`).
- The validator treats any direction whose first character upper-cases to
  'V' as vertical. The placement treats anything but exactly "H" as
  vertical, so the two disagree on "h" (`LowerCaseDirectionDiverges`).
- `getRandomInt(1)` is always 0, so the first-turn seed is always
  horizontal (`BotCrawler.SearchFromRackLetter`).

## Model

| member | source | states |
|---|---|---|
| `ActionValidator.ValidateAction` | client/src/app/GameLogic/actions/action-validator.service.ts:42-64 | The verdict is `ActionVerdict` of the action. An action from anyone but the active player is refused whatever its kind. The active player's pass is always accepted. A placement past the limit is refused as an overflow. An exchange with fewer than 7 letters in the bag is refused. |
| `ActionValidator.ValidatePlaceLetter` | client/src/app/GameLogic/actions/action-validator.service.ts:66-81 | The checks run in order: limits, then letters, then the centre rule if (7,7) is empty or the adjacency rule if it is occupied. The first failure decides. |
| `ActionValidator.ValidateLettersCanBePlaced` | client/src/app/GameLogic/actions/action-validator.service.ts:83-117 | Every word character is compared with the start cell only. An empty start cell demands the whole word from the rack. An occupied one must match each character ignoring case, or the word is refused as a conflict. A start cell off the grid is a fault. |
| `ActionValidator.StartCellDecidesCompatibility` | client/src/app/GameLogic/actions/action-validator.service.ts:84-105 | A word "ab" starting on a cell holding 'a' is refused as a conflict, even where the 'b' would land on an empty cell. |
| `ActionValidator.AcceptedPlacementLetters` | client/src/app/GameLogic/actions/action-validator.service.ts:83-117 | An accepted placement has its start cell on the board. Either that cell was empty and the rack covers the whole word, or every character equals the cell's letter ignoring case. |
| `ActionValidator.AcceptedPlacementFitsBoard` | client/src/app/GameLogic/actions/action-validator.service.ts:119-134 | An accepted placement came from the active player, is at least one character long, and every cell it covers is on the board. |
| `ActionValidator.LastColumnOverflows` | client/src/app/GameLogic/actions/action-validator.service.ts:119-134 | A five-letter word from column 10 is refused as an overflow, because the check adds the length to the start index. |
| `ActionValidator.ValidateOtherPlaceLetter` | client/src/app/GameLogic/actions/action-validator.service.ts:136-153 | The result is true iff one of the cells start+1 .. start+length along the direction has a neighbour. |
| `ActionValidator.ValidateFirstPlaceLetter` | client/src/app/GameLogic/actions/action-validator.service.ts:155-173 | The result is true iff the centre (7,7) is one of the cells start+1 .. start+length along the direction. |
| `ActionValidator.CoversCenterIffScanHits` | client/src/app/GameLogic/actions/action-validator.service.ts:155-173 | The closed-form centre test holds exactly when some step k in 1 .. length reaches (7,7). |
| `ActionValidator.AcceptedPlacementIsAnchored` | client/src/app/GameLogic/actions/action-validator.service.ts:66-81 | On an empty centre an accepted word's scan meets (7,7). Otherwise its scan meets a cell with a neighbour. |
| `ActionValidator.FirstWordOnCenterStartRefused` | client/src/app/GameLogic/actions/action-validator.service.ts:155-173 | On an empty board, "ab" starting at (7,7) is refused for missing the centre, because the scan starts one cell after the start. |
| `ActionValidator.BateauAcceptedOnEmptyBoard` | client/src/app/GameLogic/actions/action-validator.service.ts:42-117 | "bateau" along row 7 from column 4, with the rack B, A, T, E, A, U, *, is accepted on an empty board. |
| `ActionValidator.BateauConsumed` | client/src/app/GameLogic/actions/action-validator.service.ts:273-306 | The letters of "bateau" are taken from that rack without touching the joker. |
| `ActionValidator.ValidateExchangeLetter` | client/src/app/GameLogic/actions/action-validator.service.ts:249-267 | An exchange is refused when fewer than 7 letters remain in the bag. Otherwise it is accepted iff the rack covers the lower-cased letters to exchange. |
| `ActionValidator.AcceptedExchange` | client/src/app/GameLogic/actions/action-validator.service.ts:249-267 | After an accepted exchange the bag holds at least 7 letters. The rack holds each lower-case letter to exchange at least as often as it is named, and has enough jokers for the rest. |
| `ActionValidator.CountRackLetters` | client/src/app/GameLogic/actions/action-validator.service.ts:274-289 | The count map gives, for each character, how often it occurs in the lower-cased rack. |
| `ActionValidator.HasLettersInRack` | client/src/app/GameLogic/actions/action-validator.service.ts:273-306 | The result is the greedy consumption of the demand from the rack's counts. Each character takes an exact match first. Otherwise a character equal to its own upper case takes a joker. |
| `ActionValidator.ConsumeIff` | client/src/app/GameLogic/actions/action-validator.service.ts:273-306 | For a rack of letters and jokers, the greedy consumption succeeds iff each lower-case letter is demanded no more often than the rack holds it, and the other demanded characters are no more than the jokers. |
| `ActionValidator.HasAJoker` | client/src/app/GameLogic/actions/action-validator.service.ts:308-315 | The result is true iff some rack letter is '*'. |
| `PlaceLetters.IsCharUpperCase` | client/src/app/GameLogic/actions/place-letter.ts:14-20 | The result is an error iff the string is not exactly one character long. Otherwise it is true iff that character is in 'A'..'Z'. |
| `PlaceLetters.PlaceLetter.PutLettersOnBoard` | client/src/app/GameLogic/actions/place-letter.ts:82-126 | The i-th character targets (x+i, y) for "H" and (x, y+i) otherwise. Only empty cells are written. The affected cells and the rack letters used are recorded in word order. An upper-case character uses a joker and places a blank letter. The call completes iff every target is on the board; otherwise it stops at the first target off the board, with the characters before it placed and recorded. |
| `PlaceLetters.PlaceLetter.PlaceCharacter` | client/src/app/GameLogic/actions/place-letter.ts:101-109 | One character on the board: its cell receives the new letter iff it was empty, and then its cell and the rack letter it uses are appended to the records. |
| `PlaceLetters.AffectedMembers` | client/src/app/GameLogic/actions/place-letter.ts:89-109 | A cell is recorded as affected iff some character targets it and it was empty. |
| `PlaceLetters.RemovedMatchesAffected` | client/src/app/GameLogic/actions/place-letter.ts:87-118 | The letters used and the affected cells have the same length. The j-th letter used is the one for the character that landed on the j-th affected cell. |
| `PlaceLetters.PlaceLetter.RemoveLetterFromBoard` | client/src/app/GameLogic/actions/place-letter.ts:60-67 | The character of each affected cell's letter is cleared. Every other cell is unchanged. |
| `PlaceLetters.PlaceLetter.GiveBackLettersToPlayer` | client/src/app/GameLogic/actions/place-letter.ts:76-80 | The letters used are appended to the rack in order. The points are unchanged. |
| `PlaceLetters.PlaceLetter.Revert` | client/src/app/GameLogic/actions/place-letter.ts:37-40 | The board becomes the reverted board: each affected cell's character is cleared and every other cell is unchanged. The letters used return to the end of the rack. The player's points and name are unchanged. |
| `PlaceLetters.PlaceThenRevertRestoresBoard` | client/src/app/GameLogic/actions/place-letter.ts:37-40 | Placing a word and then reverting it restores every cell's character and both multipliers. Every cell the placement did not fill is exactly as it was. |
| `PlaceLetters.PlaceLetter.DrawLettersForPlayer` | client/src/app/GameLogic/actions/place-letter.ts:69-74 | As many letters as were used are drawn onto the end of the rack. The drawn letters and the bag left over are the old bag as a multiset. If the bag is too small, nothing changes. |
| `PlaceLetters.PlaceLetter.Perform` | client/src/app/GameLogic/actions/place-letter.ts:42-58 | The letters are placed and leave the rack. With a valid word, the turn score is credited, the formed words' letter multipliers are reset and the rack is refilled; the drawn letters plus the bag left are the old bag as a multiset. Without one, the points and the bag are unchanged and the placement awaits its revert. A character aimed off the board faults the call, with the rack, the points and the bag untouched. The player's name never changes. |
| `PlaceLetters.AcceptedPlacementFaults` | client/src/app/GameLogic/actions/place-letter.ts:93-99 | The validator accepts "bateau" from (4,12) with direction "h", yet the placement runs down column 4 and only its first 3 characters land on the board. |
| `PlaceLetters.AcceptedPlacementCanBePerformed` | client/src/app/GameLogic/actions/place-letter.ts:89-99 | A placement the validator accepts, with direction "H" or "V", targets only cells on the board. |
| `PlaceLetters.LowerCaseDirectionDiverges` | client/src/app/GameLogic/actions/place-letter.ts:93-99 | For direction "h" the validator steps along x while the placement steps along y. |
| `PointCalculator.CalculatePointsOfWord` | client/src/app/GameLogic/point-calculator/point-calculator.service.ts:49-59 | The score is the sum over the word's distinct tiles of value × letter multiplier, times the product of their word multipliers. |
| `PointCalculator.RepeatedTileCountsOnce` | client/src/app/GameLogic/point-calculator/point-calculator.service.ts:52-56 | A tile that occurs again in a word adds nothing to its score. |
| `PointCalculator.PlainWordScore` | client/src/app/GameLogic/point-calculator/point-calculator.service.ts:49-59 | With every multiplier at 1, a word scores the sum of its distinct tiles' values. |
| `PointCalculator.MultipliersNeverLowerScore` | client/src/app/GameLogic/point-calculator/point-calculator.service.ts:49-59 | With non-negative values and multipliers of at least 1, a word scores at least the plain sum of its values, which is non-negative. |
| `PointCalculator.PlaceLetterPointsCalculation` | client/src/app/GameLogic/point-calculator/point-calculator.service.ts:14-31 | The words are scored on the board as it was. The bonus of 50 is added iff the rack is empty and the word has at least 7 characters. The player gains exactly the total. Every tile of a formed word gets letter multiplier 1, its word multiplier is kept, and no other tile changes. |
| `PointCalculator.BonusForFullRack` | client/src/app/GameLogic/point-calculator/point-calculator.service.ts:26-28 | An emptied rack adds exactly 50 to a word of 7 or more characters, and nothing to a shorter word. |
| `PointCalculator.CalculatePointsOfRack` | client/src/app/GameLogic/point-calculator/point-calculator.service.ts:61-68 | The result is the sum of the rack letters' values. |
| `PointCalculator.RackValueNonNegative` | client/src/app/GameLogic/point-calculator/point-calculator.service.ts:61-68 | A rack of non-negative letter values is worth a non-negative amount. |
| `PointCalculator.RackValuePermutation` | client/src/app/GameLogic/point-calculator/point-calculator.service.ts:61-68 | The value of a rack does not depend on the order of its letters. |
| `PointCalculator.TileToString` | client/src/app/GameLogic/point-calculator/point-calculator.service.ts:70-76 | The string has one character per tile: the i-th character is the letter on the i-th tile. |
| `PointCalculator.EndOfGamePointDeduction` | client/src/app/GameLogic/point-calculator/point-calculator.service.ts:33-47 | The new points are `Deduction` of the old points and rack values. After 6 or more passes each player loses their rack value. Otherwise each other player's rack value moves to the active player. Racks and names are unchanged. |
| `PointCalculator.TransferConservesPoints` | client/src/app/GameLogic/point-calculator/point-calculator.service.ts:41-46 | Outside the six-pass case the deduction keeps the total of all points. |
| `PointCalculator.PassEndRemovesRackValues` | client/src/app/GameLogic/point-calculator/point-calculator.service.ts:35-39 | After six passes the total of all points falls by exactly the total rack value. |
| `PointCalculator.SixPassesWithRacksTenAndFour` | client/src/app/GameLogic/point-calculator/point-calculator.service.ts:35-39 | With racks worth 10 and 4, six passes cost the two players exactly 10 and 4, with no transfer. |
| `PointCalculator.EmptiedRackCollectsTheOthers` | client/src/app/GameLogic/point-calculator/point-calculator.service.ts:41-46 | When the game ends otherwise, the active player with an empty rack gains the other player's 4, and that player loses 4. |
| `LetterBags.TablesAligned` | client/src/app/GameLogic/game/letter-bag.ts:4-37 | The letter, count and value tables have 27 entries each. The last entry is '*', with count 2 and value 0. |
| `LetterBags.LetterBag.constructor` | client/src/app/GameLogic/game/letter-bag.ts:41-48 | A new bag holds each kind, in table order, repeated its count times with its value. |
| `LetterBags.InitialBagSize` | client/src/app/GameLogic/game/letter-bag.ts:35-47 | A new bag holds 102 letters. |
| `LetterBags.InitialBagCounts` | client/src/app/GameLogic/game/letter-bag.ts:41-47 | In a new bag, each kind occurs exactly its table count times, with its table value. |
| `LetterBags.BagPrefixKinds` | client/src/app/GameLogic/game/letter-bag.ts:41-47 | Every letter of a new bag is one of the table's kinds. |
| `LetterBags.LetterBag.DrawGameLetters` | client/src/app/GameLogic/game/letter-bag.ts:58-69 | The draw fails, leaving the bag unchanged, iff more letters are asked for than remain. Otherwise it returns exactly that many letters, the bag shrinks by that many, and the drawn letters plus the remaining bag are the old bag as a multiset. By default one letter is drawn. |
| `LetterBags.LetterBag.DrawEmptyRackLetters` | client/src/app/GameLogic/game/letter-bag.ts:54-56 | Exactly 7 letters are drawn, with the same failure and multiset guarantees. |
| `LetterCreators.CreateLetters` | client/src/app/GameLogic/game/letter-creator.ts:11-29 | A null list and an empty list fail. The call succeeds iff every element is exactly one character. The output has the input's length, and the i-th letter's character is the i-th character upper-cased. |
| `LetterCreators.CreateAll` | client/src/app/GameLogic/game/letter-creator.ts:19-29 | The call fails iff some element is not one character. Otherwise each letter is the character upper-cased, with the value table's entry at code − 97. |
| `LetterCreators.LowerCaseValueIsBagValue` | client/src/app/GameLogic/game/letter-creator.ts:5-25 | For 'a'..'z' the value is the bag's value for the same letter in upper case. |
| `Games.Game.NextPlayer` | client/src/app/GameLogic/game/games/game.ts:41-43 | The active index becomes (index + 1) mod the number of players: the last player hands on to the first. |
| `Games.Game.ActivePlayer` | client/src/app/GameLogic/game/games/game.ts:44-46 | The active player is one of the game's players. |
| `Games.Game.IsEndOfGame` | client/src/app/GameLogic/game/games/game.ts:48-60 | The game is over iff the bag is empty and some rack is empty, or there have been at least 6 consecutive passes. |
| `Games.Game.DoAction` | client/src/app/GameLogic/game/games/game.ts:72-78 | A pass raises the pass counter by one. Any other action resets it to 0. Players, points and racks are unchanged. |
| `Games.SixPassesEndTheGame` | client/src/app/GameLogic/game/games/game.ts:48-78 | After any history ending in six passes, the game is over. |
| `Games.NonPassResets` | client/src/app/GameLogic/game/games/game.ts:72-78 | A non-pass action resets the counter, whatever the history before it. |
| `Games.NonEmptyBagEndsOnlyByPasses` | client/src/app/GameLogic/game/games/game.ts:48-60 | While the bag is not empty, the game ends iff there have been at least 6 consecutive passes. |
| `Games.Game.PickFirstPlayer` | client/src/app/GameLogic/game/games/game.ts:80-84 | With players, the first player's index lies in [0, number of players). |
| `Games.Game.DrawGameLetters` | client/src/app/GameLogic/game/games/game.ts:86-92 | Each player's rack becomes 7 letters and the bag shrinks by 7 per player. The racks together plus the bag left are the old bag as a multiset. This fails iff the bag runs short. Points and names are unchanged. |
| `Games.Game.DealRack` | client/src/app/GameLogic/game/games/game.ts:88 | One player's rack becomes 7 letters from the bag, and those letters plus the bag left are the old bag as a multiset. This fails, with nothing changed, iff the bag holds fewer than 7. |
| `Games.Game.StartTurn` | client/src/app/GameLogic/game/games/game.ts:114-115 | The turn number goes up by one. The players and the active index are unchanged. |
| `Games.Game.Start` | client/src/app/GameLogic/game/games/game.ts:35-39 | Every player gets a rack of 7 letters, and the racks plus the bag left are the old bag as a multiset. A first player is picked and the first turn is counted. This fails iff the bag runs short. Points and names are unchanged. |
| `Games.Game.EndOfTurn` | client/src/app/GameLogic/game/games/game.ts:133-143 | The action updates the pass counter. If the game is over, the end-of-game deduction is applied, and the active player and the turn number stay. Otherwise the turn moves to the next player, the turn number goes up and the points are unchanged. Racks and names never change. |
| `Games.Game.FinishTurn` | client/src/app/GameLogic/game/games/game.ts:137-142 | The end-of-turn decision after the counter is updated: the same guarantees as `EndOfTurn`, with the pass counter unchanged. |
| `Games.Game.HandOn` | client/src/app/GameLogic/game/games/game.ts:141-142 | The next player becomes active and the turn number goes up. Points, racks and names are unchanged. |
| `Games.Game.OnEndOfGame` | client/src/app/GameLogic/game/games/game.ts:62-64 | The players' points become the end-of-game deduction of their old points and rack values. Racks and names are unchanged. |
| `Games.Game.GetWinner` | client/src/app/GameLogic/game/games/game.ts:155-168 | The winners are the players at the indices `WinnerIndices` picks, in table order. |
| `Games.WinnersHaveTheBestScore` | client/src/app/GameLogic/game/games/game.ts:155-168 | A player is a winner iff their score is at least -1 and no player beats it. If every score is below -1, there is no winner. |
| `Games.WinnerIndicesMembers` | client/src/app/GameLogic/game/games/game.ts:155-168 | The winner indices are in range, strictly increasing, and are exactly the players at the highest score. |
| `Bots.GetRandomInt` | client/src/app/GameLogic/player/bot.ts:16-18 | The result lies in [min, max) when max > min, so `GetRandomInt(1)` is 0. It is min when max = min, and lies in [max, min] when max < min. |
| `Bots.GenerateBotName` | client/src/app/GameLogic/player/bot.ts:21-24 | The name is one of the bot names and differs from the opponent's. |
| `Bots.Bot.constructor` | client/src/app/GameLogic/player/bot.ts:11-14 | A new bot is named from the bot names, differently from its opponent. |
| `Bots.EmptyCheck` | client/src/app/GameLogic/player/bot-crawler.ts:270-276 | An empty cell ' ' reads as '-'. Any other character reads as itself. |
| `Bots.DeleteTmpLetter` | client/src/app/GameLogic/player/bot.ts:232-241 | A count above 1 goes down by one. A count of 1 removes the key. A missing map, an absent key or a zero count leave the map unchanged. |
| `Bots.TmpLetterLeft` | client/src/app/GameLogic/player/bot.ts:243-256 | The result repeats each non-joker key its count times, in key order. It stops at a key whose count is 0 or that has no count. A null map gives the empty string. |
| `Bots.LettersLeftLength` | client/src/app/GameLogic/player/bot.ts:243-256 | For single-letter keys with positive counts, the result's length is the sum of the non-joker counts. |
| `Bots.DeleteShortensLettersLeft` | client/src/app/GameLogic/player/bot.ts:232-256 | Deleting one placed non-joker letter shortens the letters left by exactly one. |
| `BotCrawling.GetLettersOnLine` | client/src/app/GameLogic/player/bot-crawler.ts:218-268 | The result is `LineWord` of the board: the pattern runs from the start cell through the last occupied cell of the line, with empty cells as '-'. The left count is the start index and the right count is the number of trailing empties. From an occupied start, left + length + right = 15. |
| `BotCrawling.OccupiedLineBounded` | client/src/app/GameLogic/player/bot-crawler.ts:218-268 | A line read from an occupied cell starts and ends with a letter, on a board where no tile holds '-'. |
| `BotCrawling.GetAllPossibilitiesOnLine` | client/src/app/GameLogic/player/bot-crawler.ts:106-216 | A pattern with no '-' gives exactly one candidate, the line lower-cased. Every candidate is a lower-cased piece of the pattern bounded by empty cells or the line's ends. It keeps the line's orientation and starts that many cells further along it. For a pattern that starts and ends with a letter, the candidates are exactly `Cuts`: every run of consecutive letter groups, by run length and then from the left. |
| `BotCrawling.CountGroups` | client/src/app/GameLogic/player/bot-crawler.ts:122-133 | The first loop counts the letter groups of a pattern that starts and ends with a letter. |
| `BotCrawling.SkipGroups` | client/src/app/GameLogic/player/bot-crawler.ts:140-153 | The pass loop leaves the empty box at the end of group groupsOf - 1, or at -1 when that group is the last. |
| `BotCrawling.PassEndAt` | client/src/app/GameLogic/player/bot-crawler.ts:124-152 | After p rounds of "skip the empty cells, find the next '-'", the search stands at the end of group p, or at -1 once group p is the last. |
| `BotCrawling.SkipLetters` | client/src/app/GameLogic/player/bot-crawler.ts:182-184 | The left index stops at the first '-' from its start. |
| `BotCrawling.SkipEmpty` | client/src/app/GameLogic/player/bot-crawler.ts:175-178 | The index stops at the first cell from its start that is not '-', and the counter is the number of cells skipped. |
| `BotCrawling.CutOnce` | client/src/app/GameLogic/player/bot-crawler.ts:156-191 | One cut is the lower-cased piece up to the empty box, with the empty cells after the box as its right count. The left index then moves past the next run of empty cells, and the left counter counts them. |
| `BotCrawling.CutPass` | client/src/app/GameLogic/player/bot-crawler.ts:155-194 | On a pattern that starts and ends with a letter, the a-th pass of round g cuts the run of groups a through a + g - 1 and leaves the loop ready for the run from group a + 1. |
| `BotCrawling.CutGroups` | client/src/app/GameLogic/player/bot-crawler.ts:139-212 | One round of the `groupsOf` loop yields at least one piece, each bounded by empty cells or the line's ends. On a pattern that starts and ends with a letter, the round is exactly every run of groupsOf consecutive groups, from the left. |
| `BotCrawling.GroupsPartition` | client/src/app/GameLogic/player/bot-crawler.ts:122-133 | The groups are ordered, disjoint, start at 0 and end at the pattern's end. Every cell inside a group is a letter, every cell between two groups is '-', and there is one group iff the pattern has no '-'. |
| `BotCrawling.OneGroupIffNoDash` | client/src/app/GameLogic/player/bot-crawler.ts:115-121 | A pattern that starts and ends with a letter has one group iff it holds no '-'. |
| `BotCrawling.RoundsCount` | client/src/app/GameLogic/player/bot-crawler.ts:139-212 | Rounds 1 through g of m groups hold g * m - g * (g - 1) / 2 pieces. |
| `BotCrawling.RoundsComplete` | client/src/app/GameLogic/player/bot-crawler.ts:139-212 | Every run of at most g consecutive groups is among rounds 1 through g. |
| `BotCrawling.RoundsSound` | client/src/app/GameLogic/player/bot-crawler.ts:139-212 | Every piece of rounds 1 through g is a run of consecutive groups. |
| `BotCrawling.WindowIsWindowAt` | client/src/app/GameLogic/player/bot-crawler.ts:156-211 | A run of groups is the lower-cased piece of the pattern from its first group's start to its last group's end, with the empty cells around it as its counts, moved along the line by its start. |
| `BotCrawling.CutsCount` | client/src/app/GameLogic/player/bot-crawler.ts:106-216 | A line with m letter groups has m * (m + 1) / 2 candidates. |
| `BotCrawling.CutsAreRuns` | client/src/app/GameLogic/player/bot-crawler.ts:106-216 | With an empty cell, the candidates are exactly the runs of consecutive letter groups, each placed where it sits on the line. Without one, the line is its only candidate. |
| `BotCrawling.BotCrawler.PossibleWordsGenerator` | client/src/app/GameLogic/player/bot-crawler.ts:278-305 | The result is, in order, every dictionary proposal for each sub-pattern that `regexValidation` keeps, rebuilt around the text it returns. |
| `BotCrawling.GeneratedAreProposed` | client/src/app/GameLogic/player/bot-crawler.ts:282-302 | Every generated word is a proposal of the dictionary for one of the sub-patterns that `regexValidation` accepted. |
| `BotCrawling.BotCrawler.PossibleWordsValidator` | client/src/app/GameLogic/player/bot-crawler.ts:307-326 | The bot's list gains, in order, the candidates the word searcher confirms, each valued at its point estimate. Nothing else about the bot changes. |
| `BotCrawling.ValidatedFilter` | client/src/app/GameLogic/player/bot-crawler.ts:307-326 | Every kept word is confirmed, every confirmed candidate is kept, and nothing is added. |
| `BotCrawling.BotCrawler.BotFirstTurn` | client/src/app/GameLogic/player/bot-crawler.ts:26-53 | The rack is the same afterwards. The bot's list gains the words found from each non-joker rack letter in rack order, or nothing when time is up. |
| `BotCrawling.BotCrawler.SearchFromRackLetter` | client/src/app/GameLogic/player/bot-crawler.ts:29-50 | The seed is the letter, horizontal, at (7,7) with both counts 7. It is searched with that letter out of the rack, and the letter goes back to its index. |
| `BotCrawling.BotCrawler.BoardCrawler` | client/src/app/GameLogic/player/bot-crawler.ts:55-104 | Nothing happens when time is up. Otherwise the lines read are exactly `ScanLines` of the start, and only confirmed words are appended. On a board where no tile holds '-', the list grows by exactly `CrawlWords`: for each line in scan order, the confirmed words generated from the cuts of that line read from its first occupied cell. The rack, the name and `timesUp` are unchanged. |
| `BotCrawling.BotCrawler.CrawlFirstLine` | client/src/app/GameLogic/player/bot-crawler.ts:57-80 | The scan stays on the line. On a board where no tile holds '-', the list grows by exactly `LineWords` of the line. |
| `BotCrawling.BotCrawler.CrawlLine` | client/src/app/GameLogic/player/bot-crawler.ts:74-80 | The list grows by exactly the confirmed words generated, with the rack as it was, from the cuts of the line read from the cell, whenever that line starts and ends with a letter. Only confirmed words are ever appended. |
| `BotCrawling.ScanFromRow` | client/src/app/GameLogic/player/bot-crawler.ts:82-103 | From row y the crawl reads rows y..14 along the rows, then columns 0..14 along the columns, each from its first cell, and stops. |
| `BotCrawling.BotCrawler.FirstLetterOnLine` | client/src/app/GameLogic/player/bot-crawler.ts:57-73 | The scan ends on the same line, at or after the start, at `FirstLetterFrom` of the start: the first occupied cell, or the line's last cell if the line is empty from the start on. |
| `GameManager.GameManagerService.CreateGame` | server/app/game/game-manager/game-manager.services.ts:86-91 | The game is registered under its token with an empty linked-client list. No other entry changes. |
| `GameManager.GameManagerService.AddPlayerToGame` | server/app/game/game-manager/game-manager.services.ts:93-122 | The call fails with its own message when the game is not active, when the name is not a player of the game, or when a client is already linked under that name. On success the socket is bound to the game and player and exactly one client is appended. The game is started exactly when its list reaches 2. |
| `GameManager.LinkedWithinPlayers` | server/app/game/game-manager/game-manager.services.ts:110-118 | A game never has more linked clients than players, since linked names are distinct player names. |
| `GameManager.GameManagerService.ReceivePlayerAction` | server/app/game/game-manager/game-manager.services.ts:124-138 | An unknown socket fails. A failed translation, or a game with no client list, ends the call quietly. Otherwise the translated action goes to the clients of the player's game. |
| `GameManager.GameManagerService.RemovePlayerFromGame` | server/app/game/game-manager/game-manager.services.ts:140-156 | For an unknown socket or a missing game nothing changes. Otherwise the socket is unbound, the player forfeits, and the game and its client list are removed. |
| `GameManager.GameManagerService.DeleteGame` | server/app/game/game-manager/game-manager.services.ts:220-223 | The token is removed from the active games and the linked clients. The bound sockets are untouched. |

## Left out

- Timers and streams are not modelled: the turn timer, `merge`/`first`, the revert delay `timer(TIME_FOR_REVERT)`, the server's inactive-game `setTimeout` and the Subjects. A pending revert is the `RevertPending` outcome of `Perform`, followed by an explicit `Revert`. A turn timeout is an injected pass.
- The debug `simulatePlayerInput`, `getRandomInt` in game.ts, `displayLettersLeft` and the console logging are not modelled; they have no effect on the game's state.
- Message formatting and sending in the validator are not modelled. Only the verdict is kept, with the reason as a `Reason` value.
- `Board.hasNeighbour`, the word searcher, the dictionary's `wordGen` and `regexValidation`, `testPlaceLetterCalculation`, the letter factory's `createLetter`/`createBlankLetter`, `Player.removeLetterFromRack` and the server's action translation are not part of this model. They are function parameters, and the model states its results in terms of them.
- `Bot.regexCheck` and the older `Bot.boardCrawler`/`bruteForceStart` are not modelled. The first relies on regular expressions with lookbehind; the second indexes the grid as `[x][y]` and reads past row 14.
- `desactivateWordMultiplicator` is never called, so it has no effect and no member.
- `Bots.GetRandomInt`: the floating-point draw is a choice of any integer the floor can produce, for integer bounds only.
- `Games.Game.PickFirstPlayer`: the uniform draw is a choice of any index in range; uniformity is not stated.
- `LetterBags.LetterBag.DrawGameLetters`: each drawn index is a choice of any index in range; uniformity is not stated.
- `Bots.GenerateBotName`: the retry by recursion is one choice among the names that differ from the opponent's, since the number of retries is random.
- `Games.Game.EndOfTurn`: `action.perform(game)` is modelled by its effect on the pass counter (`doAction`); the placement itself is `PlaceLetter.Perform`. The list of winners computed at the end of the game is only logged, so `OnEndOfGame` does not return it.
- `PointCalculator.CalculatePointsOfRack`: the source builds a `Set` of the rack's letter objects. Rack letters are distinct objects, so the model sums every entry.
- `PointCalculator.CalculatePointsOfWord`: a tile is deduplicated by its cell, which stands for the source's object identity of a `Tile`.
- `PointCalculator.PlaceLetterPointsCalculation`: `isLetterRackEmpty` is read as a rack of length 0, since `Player` is not part of this model.
- `PlaceLetters.PlaceThenRevertRestoresBoard`: the revert clears the character of the placed letter but keeps that letter's value, so a reverted cell equals the original in character and multipliers, not in the letter's value. The source behaves the same way.
- `PlaceLetters.PlaceLetter.Perform`: a draw the bag cannot satisfy throws in the source; the model reports it as `DrawFailed` after scoring.
- `Games.Game.IsEndOfGame`: `letterBag.isEmpty` and `player.letterRackIsEmpty` are read as "holds no letter". `LetterBag` as shown has no `isEmpty` member, and `Player` is not part of this model.
- `PlaceLetters.PlaceLetter.Perform`: the call `placeLetterCalculation` is read as `placeLetterPointsCalculation`, the only scoring method of the point calculator shown.
- `Bots.NewValidWord`, `BotCrawling.Rebuilt`: the defaults of a fresh `ValidWord` (every count and index 0, horizontal, value 0, no adjacent words) are assumed; the `ValidWord` class is not part of this model.
- `BotCrawling.BotCrawler.BoardCrawler`: the exact list of appended words is stated only for a board where no tile holds '-'. A '-' on a tile would read as an empty cell in the pattern.
- `BotCrawling.GetAllPossibilitiesOnLine`, `BotCrawling.CutGroups`: the exact list of candidates is stated only for a pattern that starts and ends with a letter, which is every pattern `boardCrawler` passes when no tile holds '-'. For other patterns only the piece-of-the-line guarantees are stated.
- `BotCrawling.GetAllPossibilitiesOnLine`: with no '-', the source lower-cases the caller's `lettersOnLine` in place and returns it; the model returns a lower-cased copy, so the aliasing is not modelled.
- `BotCrawling.GetLettersOnLine` requires the line to hold a letter. On an empty line the source reads the row or column before index 0 and fails; `boardCrawler` never calls it that way.
- `BotCrawling.BotCrawler.BotFirstTurn`: `timesUp` is set by a timer, so within one call it is read as constant.
- `GameManager.GameManagerService.ReceivePlayerAction`: `player.play(action)` is not part of this model; the call ends once the action has been announced.
- `GameManager.GameManagerService.RemovePlayerFromGame`: the game state snapshot sent to the forfeit stream is not modelled.
- `Common.LowerChar`, `Common.UpperChar`: case mapping covers the ASCII letters only; other characters map to themselves.
- Sockets, session setup, the database and the Angular UI are not part of this model.
