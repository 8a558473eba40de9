/** Shared vocabulary of the game logic: game constants, ASCII case mapping,
    letters, tiles, board coordinates, players and the three kinds of action. */
module Common {

  datatype Option<T> = None | Some(value: T)

  /** A value, or the message of the error the source throws. */
  datatype Result<T> = Ok(value: T) | Err(message: string)

  // Game constants.
  const RackLetterCount: int := 7
  const BoardDimension: int := 15
  const BoardMinPosition: int := 0
  const BoardMaxPosition: int := 14
  const CenterPosition: int := 7
  const JokerChar: char := '*'
  const EmptyChar: char := ' '
  const TimeForRevert: int := 3000
  const MaxConsecutivePass: int := 6

  predicate IsUpperAscii(c: char) { 'A' <= c <= 'Z' }
  predicate IsLowerAscii(c: char) { 'a' <= c <= 'z' }

  /** `toLowerCase` of one character, restricted to the ASCII letters. */
  function LowerChar(c: char): (r: char)
    ensures IsUpperAscii(c) ==> IsLowerAscii(r) && r as int == c as int + 32
    ensures !IsUpperAscii(c) ==> r == c
  {
    if IsUpperAscii(c) then (c as int + 32) as char else c
  }

  /** `toUpperCase` of one character, restricted to the ASCII letters. */
  function UpperChar(c: char): (r: char)
    ensures IsLowerAscii(c) ==> IsUpperAscii(r) && r as int == c as int - 32
    ensures !IsLowerAscii(c) ==> r == c
  {
    if IsLowerAscii(c) then (c as int - 32) as char else c
  }

  function Lower(s: string): (r: string)
    ensures |r| == |s|
    ensures forall i {:trigger r[i]} :: 0 <= i < |s| ==> r[i] == LowerChar(s[i])
  {
    seq(|s|, i requires 0 <= i < |s| => LowerChar(s[i]))
  }

  /** A scoring letter: its character and its point value. */
  datatype Letter = Letter(ch: char, value: int)

  /** A board square: the letter it holds (EmptyChar when free) and its
      one-shot letter and word multipliers. */
  datatype Tile = Tile(letter: Letter, letterMultiplier: int, wordMultiplier: int)

  datatype Vec2 = Vec2(x: int, y: int)

  /** A value view of the 15x15 board, indexed [y][x] like the grid. */
  type Grid = seq<seq<Tile>>

  predicate ValidGrid(g: Grid) {
    |g| == BoardDimension && forall y :: 0 <= y < |g| ==> |g[y]| == BoardDimension
  }

  predicate InBoard(v: Vec2) {
    BoardMinPosition <= v.x <= BoardMaxPosition && BoardMinPosition <= v.y <= BoardMaxPosition
  }

  function CharAt(g: Grid, v: Vec2): char
    requires ValidGrid(g) && InBoard(v)
  {
    g[v.y][v.x].letter.ch
  }

  /** The snapshot of a board grid as a value. */
  function Snapshot(grid: array2<Tile>): (g: Grid)
    reads grid
    requires grid.Length0 == BoardDimension && grid.Length1 == BoardDimension
    ensures ValidGrid(g)
    ensures forall y, x :: 0 <= y < BoardDimension && 0 <= x < BoardDimension ==> g[y][x] == grid[y, x]
  {
    seq(BoardDimension, (y: int) requires 0 <= y < BoardDimension reads grid =>
      seq(BoardDimension, (x: int) requires 0 <= x < BoardDimension reads grid => grid[y, x]))
  }

  /** A player: the name, the letter rack and the (possibly negative) score. */
  class Player {
    var name: string
    var letterRack: seq<Letter>
    var points: int

    constructor (name: string)
      ensures this.name == name && letterRack == [] && points == 0
    {
      this.name := name;
      letterRack := [];
      points := 0;
    }
  }

  /** The values of the direction enumeration. */
  const Horizontal: string := "H"
  const Vertical: string := "V"

  /** Where a word goes: its first cell and its direction string ("H" or "V"). */
  datatype PlacementSetting = PlacementSetting(x: int, y: int, direction: string)

  /** The three actions a player can submit. */
  datatype Action =
    | Place(player: Player, word: string, placement: PlacementSetting)
    | Exchange(player: Player, lettersToExchange: seq<Letter>)
    | Pass(player: Player)
}
