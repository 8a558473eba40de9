/** The virtual player's board search: every row and then every column is read
    as a pattern string ('-' for an empty cell), the pattern is cut into
    sub-patterns bounded by empty cells, the dictionary proposes words for
    each, and the words the word searcher confirms are kept with their
    estimated value. */
module BotCrawling {
  import opened Common
  import opened Bots

  /** The dictionary service: `wordGen` proposes words for a sub-pattern,
      `regexValidation` checks one against the pattern and the rack and
      answers the word to keep or "false". */
  datatype Dictionary = Dictionary(
    wordGen: ValidWord -> seq<ValidWord>,
    regexValidation: (ValidWord, string, seq<Letter>) -> string)

  /** The word searcher (the words a placement would form, as the cells of
      each) and the point estimate for a number of placed letters. */
  datatype WordSearch = WordSearch(
    listOfValidWord: (string, PlacementSetting) -> seq<seq<Vec2>>,
    pointEstimate: (int, seq<seq<Vec2>>) -> int)

  // ---------------------------------------------------------------------------
  // String primitives with their JavaScript meaning.

  /** `charAt(i) === '-'`: false outside the string. */
  predicate DashAt(w: string, i: int) {
    0 <= i < |w| && w[i] == '-'
  }

  /** `indexOf('-', from)`: a negative start searches from 0; -1 when none. */
  function IndexOfDash(w: string, from: int): (r: int)
    ensures r == -1 || (0 <= r < |w| && from <= r && w[r] == '-')
    decreases |w| - from
  {
    if from < 0 then IndexOfDash(w, 0)
    else if from >= |w| then -1
    else if w[from] == '-' then from
    else IndexOfDash(w, from + 1)
  }

  /** Where `while (charAt(i) === '-') i++` stops. */
  function SkipDashes(w: string, i: int): (j: int)
    ensures i <= j && !DashAt(w, j)
    ensures i <= |w| ==> j <= |w|
    decreases |w| - i
  {
    if DashAt(w, i) then SkipDashes(w, i + 1) else i
  }

  /** No empty cell lies between `from` and the one `IndexOfDash` finds. */
  lemma {:induction false} IndexOfDashSkips(w: string, from: int)
    ensures var r := IndexOfDash(w, from);
      forall k :: 0 <= k < |w| && from <= k && (r == -1 || k < r) ==> w[k] != '-'
    decreases |w| - from
  {
    if from < 0 {
      IndexOfDashSkips(w, 0);
    } else if from < |w| && w[from] != '-' {
      IndexOfDashSkips(w, from + 1);
    }
  }

  /** Every cell `SkipDashes` passes over is empty. */
  lemma {:induction false} SkipDashesSkips(w: string, i: int)
    ensures forall k :: i <= k < SkipDashes(w, i) ==> DashAt(w, k)
    decreases |w| - i
  {
    if DashAt(w, i) {
      SkipDashesSkips(w, i + 1);
    }
  }

  lemma {:induction false} SkipDashesMonotone(w: string, i: int, j: int)
    requires i <= j
    ensures SkipDashes(w, i) <= SkipDashes(w, j)
    decreases j - i
  {
    if i < j && DashAt(w, i) {
      SkipDashesMonotone(w, i + 1, j);
    }
  }

  /** `while (charAt(index) === '-') { counter++; index++; }`. */
  method SkipEmpty(w: string, start: int) returns (index: int, counter: int)
    ensures index == SkipDashes(w, start) && counter == index - start
  {
    index := start;
    counter := 0;
    while DashAt(w, index)
      invariant start <= index <= SkipDashes(w, start)
      invariant SkipDashes(w, index) == SkipDashes(w, start)
      invariant counter == index - start
      decreases |w| - index
    {
      counter := counter + 1;
      index := index + 1;
    }
  }

  // ---------------------------------------------------------------------------
  // Reading one line of the board.

  /** The i-th cell's character along the line through `position`. */
  function LineChar(g: Grid, position: Vec2, isVertical: bool, i: int): char
    requires ValidGrid(g) && InBoard(position) && 0 <= i < BoardDimension
  {
    if isVertical then g[i][position.x].letter.ch else g[position.y][i].letter.ch
  }

  /** The index along the line where `position` sits. */
  function LineIndex(position: Vec2, isVertical: bool): int {
    if isVertical then position.y else position.x
  }

  /** The last occupied cell of the line at or before index i, or -1. */
  function LastLetterUpTo(g: Grid, position: Vec2, isVertical: bool, i: int): (r: int)
    requires ValidGrid(g) && InBoard(position) && -1 <= i < BoardDimension
    ensures -1 <= r <= i
    ensures r >= 0 ==> LineChar(g, position, isVertical, r) != EmptyChar
    ensures forall k :: r < k <= i ==> LineChar(g, position, isVertical, k) == EmptyChar
    decreases i + 1
  {
    if i < 0 then -1
    else if LineChar(g, position, isVertical, i) != EmptyChar then i
    else LastLetterUpTo(g, position, isVertical, i - 1)
  }

  /** The pattern of the line through `position` from cell `start` through
      cell `last`: each cell's character, an empty cell as '-'. */
  function LinePattern(g: Grid, position: Vec2, isVertical: bool, start: int, last: int): (p: string)
    requires ValidGrid(g) && InBoard(position) && 0 <= start && last < BoardDimension
    ensures |p| == if start <= last then last - start + 1 else 0
    ensures forall k :: 0 <= k < |p| ==> p[k] == EmptyCheck(LineChar(g, position, isVertical, start + k))
    decreases last - start
  {
    if last < start then []
    else LinePattern(g, position, isVertical, start, last - 1) + [EmptyCheck(LineChar(g, position, isVertical, last))]
  }

  /** What `getLettersOnLine` reads from the board for the line through
      `position`: the pattern from the start cell through the line's last
      occupied cell, the start index as left count, the empties after the last
      occupied cell as right count, at the start cell. */
  function LineWord(g: Grid, position: Vec2, isVertical: bool): ValidWord
    requires ValidGrid(g) && InBoard(position)
  {
    var start := LineIndex(position, isVertical);
    var last := LastLetterUpTo(g, position, isVertical, BoardMaxPosition);
    NewValidWord(LinePattern(g, position, isVertical, start, last)).(
      leftCount := start, rightCount := BoardMaxPosition - last, isVertical := isVertical,
      startingTileX := position.x, startingTileY := position.y)
  }

  /** `getLettersOnLine`, started on a line that holds a letter (otherwise the
      source reads the row before row 0): the pattern runs from the start cell
      through the last occupied cell with empties as '-', the left count is
      the start index and the right count the trailing empties. */
  method GetLettersOnLine(position: Vec2, isVertical: bool, grid: array2<Tile>) returns (lettersOnLine: ValidWord)
    requires grid.Length0 == BoardDimension && grid.Length1 == BoardDimension && InBoard(position)
    requires LastLetterUpTo(Snapshot(grid), position, isVertical, BoardMaxPosition) >= 0
    ensures var g := Snapshot(grid);
      var start := LineIndex(position, isVertical);
      var last := LastLetterUpTo(g, position, isVertical, BoardMaxPosition);
      && lettersOnLine.leftCount == start
      && lettersOnLine.rightCount == BoardMaxPosition - last
      && lettersOnLine.isVertical == isVertical
      && lettersOnLine.startingTileX == position.x && lettersOnLine.startingTileY == position.y
      && |lettersOnLine.word| == (if start <= last then last - start + 1 else 0)
      && (forall k :: 0 <= k < |lettersOnLine.word| ==>
            lettersOnLine.word[k] == EmptyCheck(LineChar(g, position, isVertical, start + k)))
    ensures var g := Snapshot(grid);
      var start := LineIndex(position, isVertical);
      LineChar(g, position, isVertical, start) != EmptyChar ==>
        && lettersOnLine.leftCount + |lettersOnLine.word| + lettersOnLine.rightCount == BoardDimension
        && lettersOnLine.word[0] == LineChar(g, position, isVertical, start)
    ensures lettersOnLine == LineWord(Snapshot(grid), position, isVertical)
  {
    ghost var g := Snapshot(grid);
    var start := LineIndex(position, isVertical);
    lettersOnLine := NewValidWord("").(leftCount := start, isVertical := isVertical,
      startingTileX := position.x, startingTileY := position.y);
    var lastLetterOfLine, rightCount := FindLastLetter(position, isVertical, grid);
    lettersOnLine := lettersOnLine.(rightCount := rightCount);
    var word := ReadLine(position, isVertical, grid, start, lastLetterOfLine);
    lettersOnLine := lettersOnLine.(word := word);
    if LineChar(g, position, isVertical, start) != EmptyChar {
      assert start <= lastLetterOfLine;
    }
    assert word == LinePattern(g, position, isVertical, start, lastLetterOfLine);
  }

  /** The cell's character read from the board. */
  function CellChar(grid: array2<Tile>, position: Vec2, isVertical: bool, i: int): (c: char)
    reads grid
    requires grid.Length0 == BoardDimension && grid.Length1 == BoardDimension && InBoard(position)
    requires 0 <= i < BoardDimension
    ensures c == LineChar(Snapshot(grid), position, isVertical, i)
  {
    if isVertical then grid[i, position.x].letter.ch else grid[position.y, i].letter.ch
  }

  /** The backward scan of `getLettersOnLine` for the last occupied cell. */
  method FindLastLetter(position: Vec2, isVertical: bool, grid: array2<Tile>) returns (last: int, rightCount: int)
    requires grid.Length0 == BoardDimension && grid.Length1 == BoardDimension && InBoard(position)
    requires LastLetterUpTo(Snapshot(grid), position, isVertical, BoardMaxPosition) >= 0
    ensures last == LastLetterUpTo(Snapshot(grid), position, isVertical, BoardMaxPosition)
    ensures rightCount == BoardMaxPosition - last
  {
    ghost var g := Snapshot(grid);
    ghost var target := LastLetterUpTo(g, position, isVertical, BoardMaxPosition);
    last := BoardMaxPosition;
    rightCount := 0;
    var letter := CellChar(grid, position, isVertical, last);
    while letter == EmptyChar
      invariant 0 <= target <= last <= BoardMaxPosition && rightCount == BoardMaxPosition - last
      invariant LastLetterUpTo(g, position, isVertical, last) == target
      invariant letter == LineChar(g, position, isVertical, last)
      decreases last
    {
      last := last - 1;
      rightCount := rightCount + 1;
      letter := CellChar(grid, position, isVertical, last);
    }
  }

  /** The forward scan of `getLettersOnLine`, from `start` through `last`. */
  method ReadLine(position: Vec2, isVertical: bool, grid: array2<Tile>, start: int, last: int) returns (word: string)
    requires grid.Length0 == BoardDimension && grid.Length1 == BoardDimension && InBoard(position)
    requires 0 <= start < BoardDimension && last < BoardDimension
    ensures |word| == (if start <= last then last - start + 1 else 0)
    ensures forall k :: 0 <= k < |word| ==>
      word[k] == EmptyCheck(LineChar(Snapshot(grid), position, isVertical, start + k))
  {
    word := "";
    var tmp := start;
    while tmp <= last
      invariant start <= tmp && (tmp <= last + 1 || tmp == start)
      invariant |word| == tmp - start
      invariant forall k :: 0 <= k < |word| ==>
        word[k] == EmptyCheck(LineChar(Snapshot(grid), position, isVertical, start + k))
      decreases last + 1 - tmp
    {
      var letterInBox := CellChar(grid, position, isVertical, tmp);
      word := word + [EmptyCheck(letterInBox)];
      tmp := tmp + 1;
    }
  }

  // ---------------------------------------------------------------------------
  // Cutting a line into sub-patterns.

  /** `c` is the piece of `line`'s pattern between l and r, lowercased, bounded
      by empty cells or the ends of the line, in the line's orientation and
      starting l cells further along it; it keeps the line's left count when
      it starts the line and the line's right count when it ends it. */
  predicate WindowAt(line: ValidWord, c: ValidWord, l: int, r: int) {
    && 0 <= l <= r <= |line.word|
    && c.word == Lower(line.word)[l..r]
    && (0 < l ==> DashAt(line.word, l - 1))
    && (r < |line.word| ==> DashAt(line.word, r))
    && c.isVertical == line.isVertical
    && (if line.isVertical then c.startingTileX == line.startingTileX && c.startingTileY == line.startingTileY + l
        else c.startingTileX == line.startingTileX + l && c.startingTileY == line.startingTileY)
    && (l == 0 ==> c.leftCount == line.leftCount)
    && (r == |line.word| ==> c.rightCount == line.rightCount)
  }

  ghost predicate IsWindow(line: ValidWord, c: ValidWord) {
    exists l, r :: WindowAt(line, c, l, r)
  }

  /** The candidate for the piece of the pattern from `leftIndex` to `rightIndex`. */
  function SubWordAt(line: ValidWord, leftIndex: int, rightIndex: int, leftCount: int, rightCount: int): ValidWord
    requires 0 <= leftIndex <= rightIndex <= |line.word|
  {
    NewValidWord(Lower(line.word)[leftIndex..rightIndex]).(
      leftCount := leftCount,
      rightCount := rightCount,
      isVertical := line.isVertical,
      startingTileX := if line.isVertical then line.startingTileX else line.startingTileX + leftIndex,
      startingTileY := if line.isVertical then line.startingTileY + leftIndex else line.startingTileY)
  }

  // ---------------------------------------------------------------------------
  // The letter groups of a pattern and the runs of them the cut produces.

  /** A maximal run of letters of a pattern: the cells from `start` up to,
      not including, `end`. */
  datatype Group = Group(start: int, end: int)

  /** A pattern that starts and ends with a letter, as does every line read
      from an occupied cell through the line's last occupied cell. */
  predicate LetterBounded(w: string) {
    |w| > 0 && w[0] != '-' && w[|w| - 1] != '-'
  }

  /** The letter groups from index `from` on: the run up to the next '-' (or
      the end of the pattern), then the groups after the run of '-' that follows. */
  function GroupsFrom(w: string, from: int): (groups: seq<Group>)
    requires 0 <= from <= |w|
    ensures |groups| >= 1
    decreases |w| - from
  {
    var e := IndexOfDash(w, from);
    if e == -1 then [Group(from, |w|)]
    else
      var next := SkipDashes(w, e);
      if next >= |w| then [Group(from, e)]
      else [Group(from, e)] + GroupsFrom(w, next)
  }

  /** Group j ends before group k starts. */
  predicate Before(groups: seq<Group>, j: int, k: int)
    requires 0 <= j < |groups| && 0 <= k < |groups|
  {
    groups[j].end < groups[k].start
  }

  /** The groups cut the cells 0 .. n into non-empty runs, in order, with a
      gap between each group and the next. */
  predicate Segmented(n: int, groups: seq<Group>) {
    && |groups| >= 1 && groups[0].start == 0 && groups[|groups| - 1].end == n
    && (forall k :: 0 <= k < |groups| ==> 0 <= groups[k].start < groups[k].end <= n)
    && (forall j, k {:trigger Before(groups, j, k)} :: 0 <= j < k < |groups| ==> Before(groups, j, k))
  }

  /** What group k from `from` is: it starts on a letter, holds only letters,
      and is followed by a run of '-' that reaches the next group (for the last
      group, the end of the pattern); `indexOf` finds its end, the '-' skip
      the next group's start. */
  lemma {:induction false} GroupsFromAt(w: string, from: int, k: int)
    requires 0 <= from < |w| && w[from] != '-'
    requires 0 <= k < |GroupsFrom(w, from)|
    ensures var groups := GroupsFrom(w, from); var n := |groups|;
      && groups[0].start == from
      && from <= groups[k].start < groups[k].end <= |w|
      && (forall i :: groups[k].start <= i < groups[k].end ==> w[i] != '-')
      && IndexOfDash(w, groups[k].start) == (if groups[k].end == |w| then -1 else groups[k].end)
      && (k < n - 1 ==>
            && groups[k].end < groups[k + 1].start
            && SkipDashes(w, groups[k].end) == groups[k + 1].start
            && (forall i :: groups[k].end <= i < groups[k + 1].start ==> w[i] == '-'))
      && (k == n - 1 ==> forall i :: groups[k].end <= i < |w| ==> w[i] == '-')
    decreases |w| - from
  {
    var e := IndexOfDash(w, from);
    IndexOfDashSkips(w, from);
    if e != -1 {
      var next := SkipDashes(w, e);
      SkipDashesSkips(w, e);
      forall i | e <= i < next
        ensures w[i] == '-'
      {
        assert DashAt(w, i);
      }
      if next < |w| {
        var rest := GroupsFrom(w, next);
        assert GroupsFrom(w, from) == [Group(from, e)] + rest;
        GroupsFromAt(w, next, 0);
        if k > 0 {
          GroupsFromAt(w, next, k - 1);
        }
      }
    }
  }

  lemma {:induction false} GroupsFromOrdered(w: string, from: int, j: int, k: int)
    requires 0 <= from < |w| && w[from] != '-'
    requires 0 <= j < k < |GroupsFrom(w, from)|
    ensures GroupsFrom(w, from)[j].end < GroupsFrom(w, from)[k].start
    decreases k - j
  {
    GroupsFromAt(w, from, j);
    if j + 1 < k {
      GroupsFromAt(w, from, j + 1);
      GroupsFromOrdered(w, from, j + 1, k);
    }
  }

  lemma GroupsSegmented(w: string)
    requires LetterBounded(w)
    ensures Segmented(|w|, GroupsFrom(w, 0))
  {
    var groups := GroupsFrom(w, 0);
    GroupsFromAt(w, 0, |groups| - 1);
    assert groups[|groups| - 1].end == |w|;
    forall k | 0 <= k < |groups|
      ensures 0 <= groups[k].start < groups[k].end <= |w|
    {
      GroupsFromAt(w, 0, k);
    }
    forall j, k | 0 <= j < k < |groups|
      ensures Before(groups, j, k)
    {
      GroupsFromOrdered(w, 0, j, k);
    }
  }

  /** The letter groups of a pattern. */
  function Groups(w: string): (groups: seq<Group>)
    ensures LetterBounded(w) ==> Segmented(|w|, groups)
  {
    if LetterBounded(w) then GroupsSegmented(w); GroupsFrom(w, 0) else GroupsFrom(w, 0)
  }

  /** Group k of a pattern that starts and ends with a letter: `indexOf`
      from its start finds its end, or -1 for the last group; the run of '-'
      after it reaches the next group; only the first group starts at 0. */
  lemma GroupStep(w: string, k: int)
    requires LetterBounded(w) && 0 <= k < |Groups(w)|
    ensures var groups := Groups(w); var n := |groups|;
      && (groups[k].start == 0 <==> k == 0)
      && IndexOfDash(w, groups[k].start) == (if k < n - 1 then groups[k].end else -1)
      && (k < n - 1 ==>
            && DashAt(w, groups[k].end)
            && SkipDashes(w, groups[k].end) == groups[k + 1].start
            && SkipDashes(w, groups[k].end + 1) == groups[k + 1].start)
      && (0 < k ==> DashAt(w, groups[k].start - 1))
  {
    GroupsFromAt(w, 0, k);
    var groups := Groups(w);
    if k > 0 {
      assert Before(groups, 0, k);
      GroupsFromAt(w, 0, k - 1);
      assert DashAt(w, groups[k].start - 1);
    }
    if k < |groups| - 1 {
      assert DashAt(w, groups[k].end);
    }
  }

  /** The letters and the empty cells of group k: only letters inside it,
      only '-' between it and the next. */
  lemma GroupCells(w: string, k: int)
    requires LetterBounded(w) && 0 <= k < |Groups(w)|
    ensures var groups := Groups(w);
      && (forall i :: groups[k].start <= i < groups[k].end ==> w[i] != '-')
      && (k < |groups| - 1 ==> forall i :: groups[k].end <= i < groups[k + 1].start ==> w[i] == '-')
  {
    GroupsFromAt(w, 0, k);
  }

  /** The cut made of groups a through b: the pattern from the start of group
      a to the end of group b, lowercased. Its left count is the line's for the
      first group and otherwise one less than the run of '-' before it; its
      right count is the line's for the last group and otherwise one less than
      the run of '-' after it. */
  function Window(line: ValidWord, groups: seq<Group>, a: int, b: int): ValidWord
    requires Segmented(|line.word|, groups) && 0 <= a <= b < |groups|
  {
    assert a < b ==> Before(groups, a, b);
    SubWordAt(line, groups[a].start, groups[b].end,
      if a == 0 then line.leftCount else groups[a].start - groups[a - 1].end - 1,
      if b == |groups| - 1 then line.rightCount else groups[b + 1].start - groups[b].end - 1)
  }

  /** The cuts of round g from group a on: groups a through a + g - 1, then
      a + 1 through a + g, and so on up to the run that ends with the last group. */
  function RoundFrom(line: ValidWord, groups: seq<Group>, g: int, a: int): (r: seq<ValidWord>)
    requires Segmented(|line.word|, groups) && 1 <= g && 0 <= a && a + g <= |groups|
    ensures |r| == |groups| - g + 1 - a
    decreases |groups| - a
  {
    if a + g == |groups| then [Window(line, groups, a, a + g - 1)]
    else [Window(line, groups, a, a + g - 1)] + RoundFrom(line, groups, g, a + 1)
  }

  /** Rounds 1 through g, in order: round h lists every run of h consecutive
      groups, from the left. */
  function Rounds(line: ValidWord, groups: seq<Group>, g: int): seq<ValidWord>
    requires Segmented(|line.word|, groups) && 0 <= g <= |groups|
  {
    if g == 0 then [] else Rounds(line, groups, g - 1) + RoundFrom(line, groups, g, 0)
  }

  /** The candidates of a line that starts and ends with a letter: the line
      itself, lowercased, when it has no empty cell; otherwise every run of
      consecutive letter groups, the single groups first, then the pairs, and
      so on up to the whole line. */
  function Cuts(line: ValidWord): seq<ValidWord>
    requires LetterBounded(line.word)
  {
    if '-' !in line.word then [line.(word := Lower(line.word))]
    else Rounds(line, Groups(line.word), |Groups(line.word)|)
  }

  lemma {:induction false} RoundFromAt(line: ValidWord, groups: seq<Group>, g: int, a: int)
    requires Segmented(|line.word|, groups) && 1 <= g && 0 <= a && a + g <= |groups|
    ensures forall i :: 0 <= i < |groups| - g + 1 - a ==>
      RoundFrom(line, groups, g, a)[i] == Window(line, groups, a + i, a + i + g - 1)
    decreases |groups| - a
  {
    if a + g < |groups| {
      RoundFromAt(line, groups, g, a + 1);
    }
  }

  /** Cut i of round g from group a is the run from group a + i. */
  lemma {:induction false} RoundFromIndex(line: ValidWord, groups: seq<Group>, g: int, a: int, i: int)
    requires Segmented(|line.word|, groups) && 1 <= g && 0 <= a && a + g <= |groups| && 0 <= i < |groups| - g + 1 - a
    ensures RoundFrom(line, groups, g, a)[i] == Window(line, groups, a + i, a + i + g - 1)
    decreases i
  {
    if i > 0 {
      RoundFromIndex(line, groups, g, a + 1, i - 1);
    }
  }

  /** Round h holds |groups| - h + 1 cuts, so rounds 1 through g hold
      g * |groups| - g * (g - 1) / 2 of them. */
  lemma {:induction false} RoundsCount(line: ValidWord, groups: seq<Group>, g: int)
    requires Segmented(|line.word|, groups) && 0 <= g <= |groups|
    ensures 2 * |Rounds(line, groups, g)| == 2 * g * |groups| - g * (g - 1)
  {
    if g > 0 {
      RoundsCount(line, groups, g - 1);
      var m := |groups|;
      var before := |Rounds(line, groups, g - 1)|;
      assert |Rounds(line, groups, g)| == before + (m - g + 1);
      assert 2 * before == 2 * (g - 1) * m - (g - 1) * (g - 2);
      assert 2 * (g - 1) * m == 2 * g * m - 2 * m;
      assert (g - 1) * (g - 2) == g * (g - 1) - 2 * (g - 1);
    }
  }

  /** Every run of at most g consecutive groups is among rounds 1 through g. */
  lemma {:induction false} RoundsComplete(line: ValidWord, groups: seq<Group>, g: int)
    requires Segmented(|line.word|, groups) && 0 <= g <= |groups|
    ensures forall a, b :: 0 <= a <= b < |groups| && b - a < g ==> Window(line, groups, a, b) in Rounds(line, groups, g)
  {
    if g > 0 {
      RoundsComplete(line, groups, g - 1);
      RoundFromAt(line, groups, g, 0);
      forall a, b | 0 <= a <= b < |groups| && b - a == g - 1
        ensures Window(line, groups, a, b) in Rounds(line, groups, g)
      {
        assert RoundFrom(line, groups, g, 0)[a] == Window(line, groups, a, b);
      }
    }
  }

  /** Every cut in rounds 1 through g is a run of consecutive groups. */
  lemma {:induction false} RoundsSound(line: ValidWord, groups: seq<Group>, g: int)
    requires Segmented(|line.word|, groups) && 0 <= g <= |groups|
    ensures forall c :: c in Rounds(line, groups, g) ==>
      exists a, b :: 0 <= a <= b < |groups| && c == Window(line, groups, a, b)
  {
    if g > 0 {
      RoundsSound(line, groups, g - 1);
      var round := RoundFrom(line, groups, g, 0);
      RoundFromAt(line, groups, g, 0);
      forall c | c in round
        ensures exists a, b :: 0 <= a <= b < |groups| && c == Window(line, groups, a, b)
      {
        var a :| 0 <= a < |round| && round[a] == c;
        assert c == Window(line, groups, a, a + g - 1);
      }
    }
  }

  /** A run of groups is a piece of the pattern bounded by empty cells or the
      line's ends, at its place on the line. */
  lemma WindowIsWindowAt(line: ValidWord, a: int, b: int)
    requires LetterBounded(line.word) && 0 <= a <= b < |Groups(line.word)|
    ensures var groups := Groups(line.word);
      WindowAt(line, Window(line, groups, a, b), groups[a].start, groups[b].end)
  {
    var groups := Groups(line.word);
    GroupStep(line.word, a);
    if b < |groups| - 1 {
      GroupStep(line.word, b);
    }
    if a < b {
      assert Before(groups, a, b);
    }
  }

  /** A pattern that starts and ends with a letter is one group exactly when
      it holds no '-'. */
  lemma OneGroupIffNoDash(w: string)
    requires LetterBounded(w)
    ensures |Groups(w)| == 1 <==> '-' !in w
  {
    var groups := Groups(w);
    if |groups| > 1 {
      GroupStep(w, 0);
      assert w[groups[0].end] == '-';
    } else {
      GroupCells(w, 0);
      assert forall i :: 0 <= i < |w| ==> w[i] != '-';
    }
  }

  /** The letter groups partition a pattern that starts and ends with a
      letter into runs of letters separated by runs of '-'. */
  lemma GroupsPartition(w: string)
    requires LetterBounded(w)
    ensures var groups := Groups(w);
      && Segmented(|w|, groups)
      && (forall k, i :: 0 <= k < |groups| && groups[k].start <= i < groups[k].end ==> w[i] != '-')
      && (forall k, i :: 0 <= k < |groups| - 1 && groups[k].end <= i < groups[k + 1].start ==> w[i] == '-')
      && (|groups| == 1 <==> '-' !in w)
  {
    var groups := Groups(w);
    forall k | 0 <= k < |groups|
      ensures forall i :: groups[k].start <= i < groups[k].end ==> w[i] != '-'
      ensures k < |groups| - 1 ==> forall i :: groups[k].end <= i < groups[k + 1].start ==> w[i] == '-'
    {
      GroupCells(w, k);
    }
    OneGroupIffNoDash(w);
  }

  /** A line with m letter groups has m * (m + 1) / 2 candidates. */
  lemma CutsCount(line: ValidWord)
    requires LetterBounded(line.word)
    ensures var m := |Groups(line.word)|; 2 * |Cuts(line)| == m * (m + 1)
  {
    var groups := Groups(line.word);
    OneGroupIffNoDash(line.word);
    if '-' in line.word {
      RoundsCount(line, groups, |groups|);
    }
  }

  /** The candidates of a line with an empty cell are exactly the runs of
      consecutive letter groups, each bounded by empty cells or the line's ends
      and placed where it sits on the line; a line without one is its own only
      candidate. */
  lemma CutsAreRuns(line: ValidWord)
    requires LetterBounded(line.word)
    ensures var groups := Groups(line.word); var m := |groups|;
      && (forall a, b :: 0 <= a <= b < m ==>
            WindowAt(line, Window(line, groups, a, b), groups[a].start, groups[b].end))
      && ('-' in line.word ==>
            && (forall a, b :: 0 <= a <= b < m ==> Window(line, groups, a, b) in Cuts(line))
            && (forall c :: c in Cuts(line) ==> exists a, b :: 0 <= a <= b < m && c == Window(line, groups, a, b)))
      && ('-' !in line.word ==>
            |Cuts(line)| == 1 && WindowAt(line, Cuts(line)[0], 0, |line.word|))
  {
    var w := line.word;
    var groups := Groups(w);
    var m := |groups|;
    forall a, b | 0 <= a <= b < m
      ensures WindowAt(line, Window(line, groups, a, b), groups[a].start, groups[b].end)
    {
      WindowIsWindowAt(line, a, b);
    }
    GroupsPartition(w);
    if '-' in w {
      RoundsComplete(line, groups, m);
      RoundsSound(line, groups, m);
    }
  }

  /** Where the '-' search stands after p passes of "skip the run of '-'
      here, then find the next '-'" from the start of the pattern: the loop
      that counts the groups and the loop that skips groupsOf - 1 of them. */
  function PassEnd(w: string, p: nat): int
  {
    if p == 0 then IndexOfDash(w, 0) else IndexOfDash(w, SkipDashes(w, PassEnd(w, p - 1)))
  }

  /** After p passes the search stands at the end of group p, or at -1 once
      group p is the last. */
  lemma {:induction false} PassEndAt(w: string, p: nat)
    requires LetterBounded(w) && p < |Groups(w)|
    ensures PassEnd(w, p) == IndexOfDash(w, Groups(w)[p].start)
    ensures PassEnd(w, p) == if p < |Groups(w)| - 1 then Groups(w)[p].end else -1
  {
    GroupStep(w, p);
    if p > 0 {
      PassEndAt(w, p - 1);
      GroupStep(w, p - 1);
      var groups := Groups(w);
      var before := PassEnd(w, p - 1);
      assert before == groups[p - 1].end;
      assert SkipDashes(w, before) == groups[p].start;
      assert PassEnd(w, p) == IndexOfDash(w, SkipDashes(w, before));
    }
  }

  /** `while (charAt(i) !== '-') i++`, run where an empty cell lies ahead. */
  method SkipLetters(w: string, start: int, bound: int) returns (i: int)
    requires 0 <= start <= bound && DashAt(w, bound)
    ensures i == IndexOfDash(w, start) && start <= i <= bound
  {
    IndexOfDashSkips(w, start);
    i := start;
    while !DashAt(w, i)
      invariant start <= i <= IndexOfDash(w, start) <= bound
      invariant IndexOfDash(w, i) == IndexOfDash(w, start)
      decreases bound - i
    {
      i := i + 1;
    }
  }

  /** One pass of the cutting loop of `getAllPossibilitiesOnLine`: the piece
      from `leftIndex` to the empty cell at `r0`, with the run of empty cells
      after `r0` as its right count; then `leftIndex` moves to its first empty
      cell and past the run of empty cells there, counting them. */
  method CutOnce(lettersOnLine: ValidWord, leftIndex: int, r0: int, leftCounter: int)
    returns (tmpSubWord: ValidWord, rightIndex: int, nextLeftIndex: int, nextLeftCounter: int)
    requires DashAt(lettersOnLine.word, r0) && 0 <= leftIndex <= r0
    requires 0 < leftIndex ==> DashAt(lettersOnLine.word, leftIndex - 1)
    ensures var w := lettersOnLine.word; var q := IndexOfDash(w, leftIndex);
      && rightIndex == SkipDashes(w, r0 + 1)
      && tmpSubWord == SubWordAt(lettersOnLine, leftIndex, r0,
           if leftIndex == 0 then lettersOnLine.leftCount else leftCounter, rightIndex - r0 - 1)
      && WindowAt(lettersOnLine, tmpSubWord, leftIndex, r0)
      && leftIndex <= q <= r0
      && nextLeftIndex == SkipDashes(w, q + 1) && nextLeftCounter == nextLeftIndex - q - 1
      && 0 < nextLeftIndex <= rightIndex && DashAt(w, nextLeftIndex - 1)
  {
    var w := lettersOnLine.word;
    var startOfLine := 0;
    var subWordLeftCount := if leftIndex == startOfLine then lettersOnLine.leftCount else leftCounter;
    var rightCounter;
    rightIndex, rightCounter := SkipEmpty(w, r0 + 1);
    tmpSubWord := SubWordAt(lettersOnLine, leftIndex, r0, subWordLeftCount, rightCounter);
    var i := SkipLetters(w, leftIndex, r0);
    nextLeftIndex, nextLeftCounter := SkipEmpty(w, i + 1);
    SkipDashesMonotone(w, i + 1, r0 + 1);
    SkipDashesSkips(w, i + 1);
    if nextLeftIndex > i + 1 {
      assert DashAt(w, nextLeftIndex - 1);
    }
  }

  /** The state of the cutting loop of round g before its cut of groups a
      through a + g - 1: the left index is the start of group a, the empty box
      is the end of group a + g - 1 or -1 when that is the last group, and the
      left counter holds the gap before group a. */
  ghost predicate CutAt(groups: seq<Group>, g: int, a: int, leftIndex: int, emptyBox: int, leftCounter: int) {
    && 1 <= g && 0 <= a && a + g <= |groups|
    && leftIndex == groups[a].start
    && emptyBox == (if a + g < |groups| then groups[a + g - 1].end else -1)
    && (0 < a ==> leftCounter == groups[a].start - groups[a - 1].end - 1)
  }

  /** On a letter-bounded pattern, a pass of the cutting loop that starts
      at group a cuts the run of groups a through a + g - 1 ... */
  lemma CutPassWindow(line: ValidWord, g: int, a: int, leftIndex: int, emptyBox: int, leftCounter: int, rightIndex: int)
    requires var w := line.word; LetterBounded(w) && CutAt(Groups(w), g, a, leftIndex, emptyBox, leftCounter) && emptyBox != -1
    requires 0 <= leftIndex <= emptyBox <= |line.word| && rightIndex == SkipDashes(line.word, emptyBox + 1)
    ensures SubWordAt(line, leftIndex, emptyBox, if leftIndex == 0 then line.leftCount else leftCounter, rightIndex - emptyBox - 1)
      == RoundFrom(line, Groups(line.word), g, 0)[a]
  {
    var w := line.word;
    var groups := Groups(w);
    var b := a + g - 1;
    GroupStep(w, a);
    GroupStep(w, b);
    var leftCount := if a == 0 then line.leftCount else groups[a].start - groups[a - 1].end - 1;
    var rightCount := groups[b + 1].start - groups[b].end - 1;
    assert leftIndex == groups[a].start && emptyBox == groups[b].end;
    assert (if leftIndex == 0 then line.leftCount else leftCounter) == leftCount;
    assert rightIndex - emptyBox - 1 == rightCount;
    RoundFromIndex(line, groups, g, 0, a);
    InnerWindow(line, groups, a, b);
  }

  /** A run that ends before the last group takes its right count from the
      gap after it. */
  lemma InnerWindow(line: ValidWord, groups: seq<Group>, a: int, b: int)
    requires Segmented(|line.word|, groups) && 0 <= a <= b < |groups| - 1
    ensures a < b ==> Before(groups, a, b)
    ensures Window(line, groups, a, b) == SubWordAt(line, groups[a].start, groups[b].end,
      if a == 0 then line.leftCount else groups[a].start - groups[a - 1].end - 1,
      groups[b + 1].start - groups[b].end - 1)
  {
    assert a < b ==> Before(groups, a, b);
  }

  /** ... and moves on to the run from group a + 1. */
  lemma CutPassAdvance(w: string, g: int, a: int, leftIndex: int, emptyBox: int, leftCounter: int, rightIndex: int)
    requires LetterBounded(w) && CutAt(Groups(w), g, a, leftIndex, emptyBox, leftCounter) && emptyBox != -1
    requires rightIndex == SkipDashes(w, emptyBox + 1)
    ensures var q := IndexOfDash(w, leftIndex); var next := SkipDashes(w, q + 1);
      CutAt(Groups(w), g, a + 1, next, IndexOfDash(w, rightIndex), next - q - 1)
  {
    GroupStep(w, a);
    GroupStep(w, a + g - 1);
    GroupStep(w, a + g);
  }

  /** After the cutting loop of round g, the piece from the left index to the
      end of the pattern is the run of the last g groups. */
  lemma LastCutOnGroups(line: ValidWord, g: int, a: int, leftIndex: int, leftCounter: int)
    requires LetterBounded(line.word) && CutAt(Groups(line.word), g, a, leftIndex, -1, leftCounter)
    ensures var groups := Groups(line.word);
      && a + g == |groups| && 0 <= leftIndex <= |line.word|
      && SubWordAt(line, leftIndex, |line.word|, if leftIndex == 0 then line.leftCount else leftCounter, line.rightCount)
         == RoundFrom(line, groups, g, 0)[a]
  {
    var groups := Groups(line.word);
    GroupStep(line.word, a);
    var leftCount := if a == 0 then line.leftCount else groups[a].start - groups[a - 1].end - 1;
    assert leftIndex == groups[a].start && a + g == |groups| && groups[a + g - 1].end == |line.word|;
    assert (if leftIndex == 0 then line.leftCount else leftCounter) == leftCount;
    RoundFromIndex(line, groups, g, 0, a);
    assert Window(line, groups, a, a + g - 1) == SubWordAt(line, groups[a].start, |line.word|, leftCount, line.rightCount);
  }

  /** A prefix of `whole` followed by the element after it is a longer prefix. */
  lemma PrefixGrows<T>(whole: seq<T>, part: seq<T>, x: T)
    requires |part| < |whole| && part == whole[..|part|] && x == whole[|part|]
    ensures part + [x] == whole[..|part| + 1]
  {
  }

  /** Appending in two steps appends the concatenation. */
  lemma AppendTwice<T>(first: seq<T>, second: seq<T>, third: seq<T>)
    ensures (first + second) + third == first + (second + third)
  {
  }

  /** One pass of the cutting loop followed by the search for the next empty box. */
  method CutPass(lettersOnLine: ValidWord, leftIndex: int, emptyBox: int, leftCounter: int,
                 ghost g: int, ghost a: int)
    returns (tmpSubWord: ValidWord, nextEmptyBox: int, nextLeftIndex: int, nextLeftCounter: int)
    requires DashAt(lettersOnLine.word, emptyBox) && 0 <= leftIndex <= emptyBox
    requires 0 < leftIndex ==> DashAt(lettersOnLine.word, leftIndex - 1)
    ensures WindowAt(lettersOnLine, tmpSubWord, leftIndex, emptyBox)
    ensures 0 < nextLeftIndex <= |lettersOnLine.word| && DashAt(lettersOnLine.word, nextLeftIndex - 1)
    ensures nextEmptyBox == -1 || (emptyBox < nextEmptyBox && nextLeftIndex <= nextEmptyBox && DashAt(lettersOnLine.word, nextEmptyBox))
    ensures LetterBounded(lettersOnLine.word) && CutAt(Groups(lettersOnLine.word), g, a, leftIndex, emptyBox, leftCounter) ==>
      && tmpSubWord == RoundFrom(lettersOnLine, Groups(lettersOnLine.word), g, 0)[a]
      && CutAt(Groups(lettersOnLine.word), g, a + 1, nextLeftIndex, nextEmptyBox, nextLeftCounter)
  {
    var w := lettersOnLine.word;
    var rightIndex;
    tmpSubWord, rightIndex, nextLeftIndex, nextLeftCounter := CutOnce(lettersOnLine, leftIndex, emptyBox, leftCounter);
    nextEmptyBox := IndexOfDash(w, rightIndex);
    if LetterBounded(w) && CutAt(Groups(w), g, a, leftIndex, emptyBox, leftCounter) {
      CutPassWindow(lettersOnLine, g, a, leftIndex, emptyBox, leftCounter, rightIndex);
      CutPassAdvance(w, g, a, leftIndex, emptyBox, leftCounter, rightIndex);
    }
  }

  /** The passes of `passCount` that move the empty box over the first
      groupsOf - 1 runs of empty cells: the box ends at the end of group
      groupsOf - 1, or at -1 when that is the last group. */
  method SkipGroups(w: string, groupsOf: int) returns (emptyBox: int)
    requires groupsOf >= 1
    ensures emptyBox == -1 || DashAt(w, emptyBox)
    ensures LetterBounded(w) && groupsOf <= |Groups(w)| ==> CutAt(Groups(w), groupsOf, 0, 0, emptyBox, 0)
  {
    emptyBox := IndexOfDash(w, 0);
    var index := emptyBox;
    for passCount := 1 to groupsOf
      invariant index == emptyBox && (emptyBox == -1 || DashAt(w, emptyBox))
      invariant emptyBox == PassEnd(w, passCount - 1)
    {
      var skipped;
      index, skipped := SkipEmpty(w, index);
      emptyBox := IndexOfDash(w, index);
      index := emptyBox;
    }
    if LetterBounded(w) && groupsOf <= |Groups(w)| {
      PassEndAt(w, groupsOf - 1);
      GroupStep(w, 0);
    }
  }

  /** One round of the `groupsOf` loop of `getAllPossibilitiesOnLine`: skip
      groupsOf - 1 runs of empty cells, then cut the pattern at each further
      empty cell, and end with the piece that reaches the end of the line.
      `leftCounter` carries over from one round to the next, as in the source.
      On a line that starts and ends with a letter the round is every run of
      groupsOf consecutive letter groups, from the left. */
  method CutGroups(lettersOnLine: ValidWord, groupsOf: int, leftCounterBefore: int)
    returns (windows: seq<ValidWord>, leftCounter: int)
    requires groupsOf >= 1
    ensures |windows| >= 1
    ensures forall k :: 0 <= k < |windows| ==> IsWindow(lettersOnLine, windows[k])
    ensures LetterBounded(lettersOnLine.word) && groupsOf <= |Groups(lettersOnLine.word)| ==>
      windows == RoundFrom(lettersOnLine, Groups(lettersOnLine.word), groupsOf, 0)
  {
    var w := lettersOnLine.word;
    ghost var bounded := LetterBounded(w) && groupsOf <= |Groups(w)|;
    var notFound := -1;
    var startOfLine := 0;
    var endOfLine := |w|;
    leftCounter := leftCounterBefore;
    windows := [];
    var leftIndex := startOfLine;
    var emptyBox := SkipGroups(w, groupsOf);
    var rightIndex := emptyBox;
    while emptyBox != notFound
      invariant rightIndex == emptyBox && (emptyBox == -1 || DashAt(w, emptyBox))
      invariant 0 <= leftIndex <= |w| && (emptyBox != -1 ==> leftIndex <= rightIndex)
      invariant 0 < leftIndex ==> DashAt(w, leftIndex - 1)
      invariant forall k :: 0 <= k < |windows| ==> IsWindow(lettersOnLine, windows[k])
      invariant bounded ==> CutAt(Groups(w), groupsOf, |windows|, leftIndex, emptyBox, leftCounter)
      invariant bounded ==> windows == RoundFrom(lettersOnLine, Groups(w), groupsOf, 0)[..|windows|]
      decreases if emptyBox < 0 then 0 else |w| + 1 - emptyBox
    {
      var tmpSubWord;
      tmpSubWord, emptyBox, leftIndex, leftCounter := CutPass(lettersOnLine, leftIndex, rightIndex, leftCounter, groupsOf, |windows|);
      if bounded {
        PrefixGrows(RoundFrom(lettersOnLine, Groups(w), groupsOf, 0), windows, tmpSubWord);
      }
      windows := windows + [tmpSubWord];
      rightIndex := emptyBox;
    }
    var leftCount := if leftIndex == startOfLine then lettersOnLine.leftCount else leftCounter;
    var tmpSubWord := SubWordAt(lettersOnLine, leftIndex, endOfLine, leftCount, lettersOnLine.rightCount);
    assert WindowAt(lettersOnLine, tmpSubWord, leftIndex, endOfLine);
    if bounded {
      LastCutOnGroups(lettersOnLine, groupsOf, |windows|, leftIndex, leftCounter);
      PrefixGrows(RoundFrom(lettersOnLine, Groups(w), groupsOf, 0), windows, tmpSubWord);
    }
    windows := windows + [tmpSubWord];
  }

  /** The first loop of `getAllPossibilitiesOnLine`, run once an empty cell
      has been found: one more group for each run of empty cells. On a line
      that starts and ends with a letter it counts the letter groups. */
  method CountGroups(w: string, firstEmptyBox: int) returns (maxGroupSize: int)
    requires firstEmptyBox == IndexOfDash(w, 0)
    ensures maxGroupSize >= 1
    ensures LetterBounded(w) ==> maxGroupSize == |Groups(w)|
  {
    var notFound := -1;
    var emptyBox := firstEmptyBox;
    var index := emptyBox;
    maxGroupSize := 1;
    while emptyBox != notFound
      invariant index == emptyBox && (emptyBox == -1 || DashAt(w, emptyBox))
      invariant maxGroupSize >= 1 && emptyBox == PassEnd(w, maxGroupSize - 1)
      invariant LetterBounded(w) ==> maxGroupSize <= |Groups(w)|
      decreases if emptyBox < 0 then 0 else |w| + 1 - emptyBox
    {
      if LetterBounded(w) {
        PassEndAt(w, maxGroupSize - 1);
      }
      maxGroupSize := maxGroupSize + 1;
      var skipped;
      index, skipped := SkipEmpty(w, index);
      emptyBox := IndexOfDash(w, index);
      index := emptyBox;
    }
    if LetterBounded(w) {
      PassEndAt(w, maxGroupSize - 1);
    }
  }

  /** `getAllPossibilitiesOnLine`: with no empty cell the line itself,
      lowercased, is the only candidate; otherwise every candidate is a piece
      of the pattern bounded by empty cells or the line's ends. For a line
      that starts and ends with a letter the candidates are exactly `Cuts`:
      rounds of 1, 2, ... up to all of the letter groups. */
  method GetAllPossibilitiesOnLine(lettersOnLine: ValidWord) returns (allPossibilities: seq<ValidWord>)
    ensures |allPossibilities| >= 1
    ensures '-' !in lettersOnLine.word ==>
      allPossibilities == [lettersOnLine.(word := Lower(lettersOnLine.word))]
    ensures forall k :: 0 <= k < |allPossibilities| ==> IsWindow(lettersOnLine, allPossibilities[k])
    ensures LetterBounded(lettersOnLine.word) ==> allPossibilities == Cuts(lettersOnLine)
  {
    var w := lettersOnLine.word;
    ghost var bounded := LetterBounded(w);
    var notFound := -1;
    var emptyBox := IndexOfDash(w, 0);
    if emptyBox == notFound {
      IndexOfDashSkips(w, 0);
      var whole := lettersOnLine.(word := Lower(w));
      assert WindowAt(lettersOnLine, whole, 0, |w|);
      return [whole];
    }
    var maxGroupSize := CountGroups(w, emptyBox);
    allPossibilities := [];
    var leftCounter := 0;
    for groupsOf := 1 to maxGroupSize + 1
      invariant |allPossibilities| >= groupsOf - 1
      invariant forall k :: 0 <= k < |allPossibilities| ==> IsWindow(lettersOnLine, allPossibilities[k])
      invariant bounded ==> allPossibilities == Rounds(lettersOnLine, Groups(w), groupsOf - 1)
    {
      var windows;
      windows, leftCounter := CutGroups(lettersOnLine, groupsOf, leftCounter);
      allPossibilities := allPossibilities + windows;
    }
    if bounded {
      OneGroupIffNoDash(w);
    }
  }

  // ---------------------------------------------------------------------------
  // From sub-patterns to scored words.

  /** A dictionary word rebuilt around the text `regexValidation` kept:
      placement and counts carried over, value and adjacent words at their defaults. */
  function Rebuilt(word: ValidWord, text: string): ValidWord {
    ValidWord(text, word.indexFound, word.emptyCount, word.leftCount, word.rightCount, word.isVertical,
      word.startingTileX, word.startingTileY, word.numberOfLettersPlaced, 0, [])
  }

  /** The proposals for one sub-pattern that `regexValidation` does not refuse, in order. */
  function Survivors(words: seq<ValidWord>, pattern: string, dictionary: Dictionary, rack: seq<Letter>): seq<ValidWord>
  {
    if words == [] then []
    else
      var word := words[|words| - 1];
      var text := dictionary.regexValidation(word, pattern, rack);
      Survivors(words[..|words| - 1], pattern, dictionary, rack) + (if text != "false" then [Rebuilt(word, text)] else [])
  }

  /** What `possibleWordsGenerator` collects for the sub-patterns, in order. */
  function Generated(combinations: seq<ValidWord>, dictionary: Dictionary, rack: seq<Letter>): seq<ValidWord>
  {
    if combinations == [] then []
    else
      var placedLetters := combinations[|combinations| - 1];
      Generated(combinations[..|combinations| - 1], dictionary, rack)
        + Survivors(dictionary.wordGen(placedLetters), placedLetters.word, dictionary, rack)
  }

  /** The inner loop of `possibleWordsGenerator`: each proposal that
      `regexValidation` does not refuse, rebuilt around the text it returns. */
  method KeepSurvivors(tmpWordList: seq<ValidWord>, pattern: string, dictionary: Dictionary, rack: seq<Letter>)
    returns (kept: seq<ValidWord>)
    ensures kept == Survivors(tmpWordList, pattern, dictionary, rack)
  {
    kept := [];
    for j := 0 to |tmpWordList|
      invariant kept == Survivors(tmpWordList[..j], pattern, dictionary, rack)
    {
      var word := tmpWordList[j];
      assert tmpWordList[..j + 1][..j] == tmpWordList[..j];
      var wordToValidate := dictionary.regexValidation(word, pattern, rack);
      if wordToValidate != "false" {
        kept := kept + [Rebuilt(word, wordToValidate)];
      }
    }
    assert tmpWordList[..|tmpWordList|] == tmpWordList;
  }

  /** `word` is a dictionary proposal for `placedLetters` that `regexValidation` accepted. */
  predicate Proposed(word: ValidWord, placedLetters: ValidWord, dictionary: Dictionary, rack: seq<Letter>) {
    exists d :: d in dictionary.wordGen(placedLetters)
      && dictionary.regexValidation(d, placedLetters.word, rack) != "false"
      && word == Rebuilt(d, dictionary.regexValidation(d, placedLetters.word, rack))
  }

  lemma {:induction false} SurvivorsAreAccepted(words: seq<ValidWord>, placedLetters: ValidWord, dictionary: Dictionary, rack: seq<Letter>)
    requires forall d :: d in words ==> d in dictionary.wordGen(placedLetters)
    ensures forall v :: v in Survivors(words, placedLetters.word, dictionary, rack) ==>
      Proposed(v, placedLetters, dictionary, rack)
  {
    if words != [] {
      var prefix := words[..|words| - 1];
      assert forall d :: d in prefix ==> d in words;
      SurvivorsAreAccepted(prefix, placedLetters, dictionary, rack);
    }
  }

  /** Every word the generator keeps is a dictionary proposal for one of the
      sub-patterns that `regexValidation` accepted, rebuilt around its text. */
  lemma {:induction false} GeneratedAreProposed(combinations: seq<ValidWord>, dictionary: Dictionary, rack: seq<Letter>)
    ensures forall v :: v in Generated(combinations, dictionary, rack) ==>
      exists placedLetters :: placedLetters in combinations && Proposed(v, placedLetters, dictionary, rack)
  {
    if combinations != [] {
      var prefix := combinations[..|combinations| - 1];
      var placedLetters := combinations[|combinations| - 1];
      GeneratedAreProposed(prefix, dictionary, rack);
      SurvivorsAreAccepted(dictionary.wordGen(placedLetters), placedLetters, dictionary, rack);
      forall v | v in Generated(combinations, dictionary, rack)
        ensures exists p :: p in combinations && Proposed(v, p, dictionary, rack)
      {
        if v in Generated(prefix, dictionary, rack) {
          var p :| p in prefix && Proposed(v, p, dictionary, rack);
          assert p in combinations;
        } else {
          assert placedLetters in combinations;
        }
      }
    }
  }

  /** The placement the word searcher is asked about. */
  function PlacementOf(word: ValidWord): PlacementSetting {
    PlacementSetting(word.startingTileX, word.startingTileY, if word.isVertical then Vertical else Horizontal)
  }

  /** The words the searcher finds for `word` at its placement. */
  function Found(word: ValidWord, wordSearch: WordSearch): seq<seq<Vec2>> {
    wordSearch.listOfValidWord(word.word, PlacementOf(word))
  }

  /** `word` with its point estimate and adjacent words filled in. */
  function Scored(word: ValidWord, wordSearch: WordSearch): ValidWord {
    word.(value := wordSearch.pointEstimate(word.numberOfLettersPlaced, Found(word, wordSearch)),
      adjacentWords := Found(word, wordSearch))
  }

  /** What `possibleWordsValidator` appends, in order. */
  function Validated(words: seq<ValidWord>, wordSearch: WordSearch): seq<ValidWord>
  {
    if words == [] then []
    else
      var word := words[|words| - 1];
      Validated(words[..|words| - 1], wordSearch)
        + (if |Found(word, wordSearch)| > 0 then [Scored(word, wordSearch)] else [])
  }

  /** A kept word: the searcher confirms it where it stands, and its value and
      adjacent words are what the searcher and the estimate give. */
  predicate Confirmed(word: ValidWord, wordSearch: WordSearch) {
    |Found(word, wordSearch)| > 0
    && word.value == wordSearch.pointEstimate(word.numberOfLettersPlaced, Found(word, wordSearch))
    && word.adjacentWords == Found(word, wordSearch)
  }

  /** The validator keeps exactly the candidates the searcher confirms: each kept
      word is confirmed, each confirmed candidate is kept (scored), and nothing is added. */
  lemma {:induction false} ValidatedFilter(words: seq<ValidWord>, wordSearch: WordSearch)
    ensures |Validated(words, wordSearch)| <= |words|
    ensures forall v :: v in Validated(words, wordSearch) ==> Confirmed(v, wordSearch)
    ensures forall w :: w in words && |Found(w, wordSearch)| > 0 ==> Scored(w, wordSearch) in Validated(words, wordSearch)
  {
    if words != [] {
      var prefix := words[..|words| - 1];
      ValidatedFilter(prefix, wordSearch);
      assert words == prefix + [words[|words| - 1]];
    }
  }

  /** The first-turn seed for a rack letter: horizontal, at the centre, seven
      cells free on both sides. */
  function Seed(startingLetter: char): ValidWord {
    NewValidWord([startingLetter]).(startingTileX := CenterPosition, startingTileY := CenterPosition,
      leftCount := CenterPosition, rightCount := CenterPosition)
  }

  /** Each word's count of placed letters raised by one. */
  function OneMorePlaced(words: seq<ValidWord>): (r: seq<ValidWord>)
    ensures |r| == |words|
    ensures forall k :: 0 <= k < |words| ==> r[k] == words[k].(numberOfLettersPlaced := words[k].numberOfLettersPlaced + 1)
  {
    seq(|words|, k requires 0 <= k < |words| => words[k].(numberOfLettersPlaced := words[k].numberOfLettersPlaced + 1))
  }

  /** What one round of `botFirstTurn` appends for the rack letter at i:
      nothing for the joker, otherwise the words generated from its seed with
      that letter out of the rack, each counted as placing one more letter,
      then validated. */
  function RoundWords(rack: seq<Letter>, i: int, dictionary: Dictionary, wordSearch: WordSearch): seq<ValidWord>
    requires 0 <= i < |rack|
  {
    var startingLetter := LowerChar(rack[i].ch);
    if startingLetter == JokerChar then []
    else Validated(OneMorePlaced(Generated([Seed(startingLetter)], dictionary, rack[..i] + rack[i + 1..])), wordSearch)
  }

  /** What `botFirstTurn` appends for the first n rack letters, in rack order. */
  function FirstTurnWords(rack: seq<Letter>, n: int, dictionary: Dictionary, wordSearch: WordSearch): seq<ValidWord>
    requires 0 <= n <= |rack|
  {
    if n == 0 then []
    else FirstTurnWords(rack, n - 1, dictionary, wordSearch) + RoundWords(rack, n - 1, dictionary, wordSearch)
  }

  lemma FirstTurnWordsStep(start: seq<ValidWord>, before: seq<ValidWord>, after: seq<ValidWord>,
      rack: seq<Letter>, i: int, dictionary: Dictionary, wordSearch: WordSearch)
    requires 0 <= i < |rack|
    requires before == start + FirstTurnWords(rack, i, dictionary, wordSearch)
    requires after == before + RoundWords(rack, i, dictionary, wordSearch)
    ensures after == start + FirstTurnWords(rack, i + 1, dictionary, wordSearch)
  {
  }

  // ---------------------------------------------------------------------------
  // The scan order.

  /** Where one call of `boardCrawler` starts reading, and in which direction. */
  datatype LineStart = LineStart(position: Vec2, isVertical: bool)

  /** The call reading row y from its first cell. */
  function RowLine(y: int): LineStart {
    LineStart(Vec2(BoardMinPosition, y), false)
  }

  /** The call reading column x from its first cell. */
  function ColumnLine(x: int): LineStart {
    LineStart(Vec2(x, BoardMinPosition), true)
  }

  /** The calls from column x on: one per column through column 14. */
  function ColumnCalls(x: int): seq<LineStart>
    requires 0 <= x <= BoardDimension
  {
    seq(BoardDimension - x, i requires 0 <= i < BoardDimension - x => ColumnLine(x + i))
  }

  /** The calls from row y on: one per row through row 14, then the columns. */
  function RowCalls(y: int): seq<LineStart>
    requires 0 <= y <= BoardMaxPosition
    decreases BoardMaxPosition - y
  {
    [RowLine(y)] + if y < BoardMaxPosition then RowCalls(y + 1) else ColumnCalls(BoardMinPosition)
  }

  /** The calls of `boardCrawler` from a position: this line, then, along the
      rows, the next rows from their first cell and then the columns; along
      the columns, the next columns. */
  function ScanLines(position: Vec2, isVertical: bool): seq<LineStart>
    requires InBoard(position)
  {
    [LineStart(position, isVertical)]
      + if isVertical then ColumnCalls(position.x + 1)
        else if position.y < BoardMaxPosition then RowCalls(position.y + 1)
        else ColumnCalls(BoardMinPosition)
  }

  lemma ColumnCallsStep(x: int)
    requires 0 <= x < BoardDimension
    ensures ColumnCalls(x) == [ColumnLine(x)] + ColumnCalls(x + 1)
  {
    var calls := [ColumnLine(x)] + ColumnCalls(x + 1);
    assert forall i :: 1 <= i < |calls| ==> calls[i] == ColumnCalls(x + 1)[i - 1];
  }

  /** Row y's calls in closed form: its rows in order, then the fifteen columns. */
  predicate RowCallsFrom(y: int, calls: seq<LineStart>)
    requires 0 <= y <= BoardMaxPosition
  {
    && |calls| == 2 * BoardDimension - y
    && (forall i :: 0 <= i < BoardDimension - y ==> calls[i] == RowLine(y + i))
    && (forall i :: 0 <= i < BoardDimension ==> calls[BoardDimension - y + i] == ColumnLine(i))
  }

  lemma {:induction false} RowCallsInOrder(y: int)
    requires 0 <= y <= BoardMaxPosition
    ensures RowCallsFrom(y, RowCalls(y))
    decreases BoardMaxPosition - y
  {
    if y < BoardMaxPosition {
      RowCallsInOrder(y + 1);
      RowCallsStep(y, RowCalls(y + 1));
      assert RowCalls(y) == [RowLine(y)] + RowCalls(y + 1);
    } else {
      LastRowCalls(y, ColumnCalls(BoardMinPosition));
      assert RowCalls(y) == [RowLine(y)] + ColumnCalls(BoardMinPosition);
    }
  }

  lemma RowCallsStep(y: int, rest: seq<LineStart>)
    requires 0 <= y < BoardMaxPosition && RowCallsFrom(y + 1, rest)
    ensures RowCallsFrom(y, [RowLine(y)] + rest)
  {
    var calls := [RowLine(y)] + rest;
    forall i | 0 <= i < BoardDimension - y
      ensures calls[i] == RowLine(y + i)
    {
      if i > 0 {
        assert calls[i] == rest[i - 1];
      }
    }
    forall i | 0 <= i < BoardDimension
      ensures calls[BoardDimension - y + i] == ColumnLine(i)
    {
      assert calls[BoardDimension - y + i] == rest[BoardDimension - (y + 1) + i];
    }
  }

  lemma LastRowCalls(y: int, rest: seq<LineStart>)
    requires y == BoardMaxPosition
    requires |rest| == BoardDimension && forall i :: 0 <= i < BoardDimension ==> rest[i] == ColumnLine(i)
    ensures RowCallsFrom(y, [RowLine(y)] + rest)
  {
    var calls := [RowLine(y)] + rest;
    assert forall i :: 1 <= i < |calls| ==> calls[i] == rest[i - 1];
  }

  /** Started on the first cell of row y along the rows, the crawl reads
      rows y to 14 and then columns 0 to 14, each from its first cell, and
      stops; from row 0 that is every row and then every column. */
  lemma ScanFromRow(y: int)
    requires 0 <= y <= BoardMaxPosition
    ensures RowCallsFrom(y, ScanLines(Vec2(BoardMinPosition, y), false))
  {
    RowCallsInOrder(y);
    assert ScanLines(Vec2(BoardMinPosition, y), false) == RowCalls(y);
  }

  /** Where the crawl goes after reading a line: the next column along the
      columns, the next row along the rows, the first column after the last
      row, and nowhere after the last column. */
  function NextLine(position: Vec2, isVertical: bool): Option<LineStart> {
    if isVertical && position.x < BoardMaxPosition then Some(ColumnLine(position.x + 1))
    else if isVertical then None
    else if position.y < BoardMaxPosition then Some(RowLine(position.y + 1))
    else Some(ColumnLine(BoardMinPosition))
  }

  /** One crawl step after another: the calls from a line are that line
      and then the calls from the next one. */
  lemma ScanLinesUnfold(position: Vec2, isVertical: bool)
    requires InBoard(position)
    ensures var next := NextLine(position, isVertical);
      next.Some? ==> InBoard(next.value.position)
    ensures var next := NextLine(position, isVertical);
      ScanLines(position, isVertical) == [LineStart(position, isVertical)]
        + if next.None? then [] else ScanLines(next.value.position, next.value.isVertical)
  {
    if isVertical && position.x < BoardMaxPosition {
      ColumnCallsStep(position.x + 1);
    } else if !isVertical && position.y < BoardMaxPosition {
      assert ScanLines(Vec2(BoardMinPosition, position.y + 1), false) == RowCalls(position.y + 1);
    } else if !isVertical {
      ColumnCallsStep(BoardMinPosition);
    }
  }

  /** `after` is `before` with confirmed words appended. */
  predicate Extends(before: seq<ValidWord>, after: seq<ValidWord>, wordSearch: WordSearch) {
    before <= after && forall k :: |before| <= k < |after| ==> Confirmed(after[k], wordSearch)
  }

  lemma ExtendsTransitive(a: seq<ValidWord>, b: seq<ValidWord>, c: seq<ValidWord>, wordSearch: WordSearch)
    requires Extends(a, b, wordSearch) && Extends(b, c, wordSearch)
    ensures Extends(a, c, wordSearch)
  {
    assert forall k :: |b| <= k < |c| ==> Confirmed(c[k], wordSearch);
  }

  lemma {:induction false} LastLetterReaches(g: Grid, position: Vec2, isVertical: bool, i: int, j: int)
    requires ValidGrid(g) && InBoard(position) && 0 <= j <= i < BoardDimension
    requires LineChar(g, position, isVertical, j) != EmptyChar
    ensures LastLetterUpTo(g, position, isVertical, i) >= j
  {
  }

  /** No tile of the board holds the character '-', which the patterns use
      for an empty cell. */
  predicate NoDashTile(g: Grid)
    requires ValidGrid(g)
  {
    forall y, x :: 0 <= y < BoardDimension && 0 <= x < BoardDimension ==> g[y][x].letter.ch != '-'
  }

  /** A line read from an occupied cell starts with a letter and ends with
      one, unless a tile holds '-'. */
  lemma OccupiedLineBounded(g: Grid, position: Vec2, isVertical: bool)
    requires ValidGrid(g) && InBoard(position) && NoDashTile(g)
    requires LineChar(g, position, isVertical, LineIndex(position, isVertical)) != EmptyChar
    ensures LetterBounded(LineWord(g, position, isVertical).word)
  {
    var start := LineIndex(position, isVertical);
    LastLetterReaches(g, position, isVertical, BoardMaxPosition, start);
    var last := LastLetterUpTo(g, position, isVertical, BoardMaxPosition);
    var w := LineWord(g, position, isVertical).word;
    assert w[0] == EmptyCheck(LineChar(g, position, isVertical, start));
    assert w[|w| - 1] == EmptyCheck(LineChar(g, position, isVertical, last));
  }

  /** Where the scan at the head of `boardCrawler` stops: the first occupied
      cell of the line from `position` on, or the line's last cell. */
  function FirstLetterFrom(g: Grid, position: Vec2, isVertical: bool): (p: Vec2)
    requires ValidGrid(g) && InBoard(position)
    ensures InBoard(p)
    decreases BoardMaxPosition - LineIndex(position, isVertical)
  {
    if LineChar(g, position, isVertical, LineIndex(position, isVertical)) != EmptyChar
      || LineIndex(position, isVertical) == BoardMaxPosition
    then position
    else if isVertical then FirstLetterFrom(g, Vec2(position.x, position.y + 1), isVertical)
    else FirstLetterFrom(g, Vec2(position.x + 1, position.y), isVertical)
  }

  /** The words the crawl of one line adds: none when the line is empty from
      `position` on; otherwise the confirmed words generated from the cuts of
      the line read from its first occupied cell. */
  function LineWords(g: Grid, position: Vec2, isVertical: bool, dictionary: Dictionary, rack: seq<Letter>,
                     wordSearch: WordSearch): seq<ValidWord>
    requires ValidGrid(g) && InBoard(position) && NoDashTile(g)
  {
    var p := FirstLetterFrom(g, position, isVertical);
    if LineChar(g, p, isVertical, LineIndex(p, isVertical)) == EmptyChar then []
    else
      OccupiedLineBounded(g, p, isVertical);
      Validated(Generated(Cuts(LineWord(g, p, isVertical)), dictionary, rack), wordSearch)
  }

  /** The words the crawl adds from the line at `position` on, line after
      line in the order of `NextLine`. */
  function CrawlWords(g: Grid, position: Vec2, isVertical: bool, dictionary: Dictionary, rack: seq<Letter>,
                      wordSearch: WordSearch): seq<ValidWord>
    requires ValidGrid(g) && InBoard(position) && NoDashTile(g)
    decreases if isVertical then 0 else 1, if isVertical then BoardMaxPosition - position.x else BoardMaxPosition - position.y
  {
    ScanLinesUnfold(position, isVertical);
    var next := NextLine(position, isVertical);
    LineWords(g, position, isVertical, dictionary, rack, wordSearch)
      + if next.None? then [] else CrawlWords(g, next.value.position, next.value.isVertical, dictionary, rack, wordSearch)
  }

  // ---------------------------------------------------------------------------
  // The crawler.

  class BotCrawler {
    const bot: Bot
    const dictionary: Dictionary
    const wordSearch: WordSearch

    constructor (bot: Bot, dictionary: Dictionary, wordSearch: WordSearch)
      ensures this.bot == bot && this.dictionary == dictionary && this.wordSearch == wordSearch
    {
      this.bot := bot;
      this.dictionary := dictionary;
      this.wordSearch := wordSearch;
    }

    /** `possibleWordsGenerator`. */
    method PossibleWordsGenerator(allPlacedLettersCombination: seq<ValidWord>) returns (possiblyValidWords: seq<ValidWord>)
      ensures possiblyValidWords == Generated(allPlacedLettersCombination, dictionary, bot.letterRack)
    {
      possiblyValidWords := [];
      var rack := bot.letterRack;
      for i := 0 to |allPlacedLettersCombination|
        invariant possiblyValidWords == Generated(allPlacedLettersCombination[..i], dictionary, rack)
      {
        var placedLetters := allPlacedLettersCombination[i];
        assert allPlacedLettersCombination[..i + 1][..i] == allPlacedLettersCombination[..i];
        var tmpWordList := dictionary.wordGen(placedLetters);
        var kept := KeepSurvivors(tmpWordList, placedLetters.word, dictionary, rack);
        possiblyValidWords := possiblyValidWords + kept;
      }
      assert allPlacedLettersCombination[..|allPlacedLettersCombination|] == allPlacedLettersCombination;
    }

    /** `possibleWordsValidator`: the confirmed candidates, scored, are
        appended to the bot's list; nothing else about the bot changes. */
    method PossibleWordsValidator(possiblyValidWords: seq<ValidWord>)
      modifies bot
      ensures bot.validWordList == old(bot.validWordList) + Validated(possiblyValidWords, wordSearch)
      ensures bot.letterRack == old(bot.letterRack) && bot.name == old(bot.name) && bot.timesUp == old(bot.timesUp)
    {
      for i := 0 to |possiblyValidWords|
        invariant bot.validWordList == old(bot.validWordList) + Validated(possiblyValidWords[..i], wordSearch)
        invariant bot.letterRack == old(bot.letterRack) && bot.name == old(bot.name) && bot.timesUp == old(bot.timesUp)
      {
        var word := possiblyValidWords[i];
        assert possiblyValidWords[..i + 1][..i] == possiblyValidWords[..i];
        var validWords := wordSearch.listOfValidWord(word.word, PlacementOf(word));
        var wordIsValid := |validWords| > 0;
        if wordIsValid {
          var pointEstimation := wordSearch.pointEstimate(word.numberOfLettersPlaced, validWords);
          word := word.(value := pointEstimation, adjacentWords := validWords);
          bot.validWordList := bot.validWordList + [word];
        }
      }
      assert possiblyValidWords[..|possiblyValidWords|] == possiblyValidWords;
    }

    /** `botFirstTurn`: each rack letter but the joker seeds a horizontal
        search from the centre with that letter taken out of the rack; the
        letter goes back to its place, so the rack ends as it began. The
        random vertical flip never fires, `getRandomInt(1)` being 0. */
    method BotFirstTurn()
      modifies bot
      ensures bot.letterRack == old(bot.letterRack) && bot.name == old(bot.name) && bot.timesUp == old(bot.timesUp)
      ensures bot.validWordList == old(bot.validWordList)
        + if bot.timesUp then [] else FirstTurnWords(bot.letterRack, |bot.letterRack|, dictionary, wordSearch)
    {
      ghost var rack := bot.letterRack;
      var rackIndex := 0;
      while rackIndex < |bot.letterRack|
        invariant bot.letterRack == rack && bot.name == old(bot.name) && bot.timesUp == old(bot.timesUp)
        invariant 0 <= rackIndex <= |rack| && (bot.timesUp ==> rackIndex == 0)
        invariant bot.validWordList == old(bot.validWordList) + FirstTurnWords(rack, rackIndex, dictionary, wordSearch)
      {
        if bot.timesUp {
          break;
        }
        ghost var before := bot.validWordList;
        FirstTurnRound(rackIndex);
        FirstTurnWordsStep(old(bot.validWordList), before, bot.validWordList, rack, rackIndex, dictionary, wordSearch);
        rackIndex := rackIndex + 1;
      }
    }

    /** The body of `botFirstTurn` for one rack index: the joker is skipped. */
    method FirstTurnRound(rackIndex: int)
      requires 0 <= rackIndex < |bot.letterRack|
      modifies bot
      ensures bot.letterRack == old(bot.letterRack) && bot.name == old(bot.name) && bot.timesUp == old(bot.timesUp)
      ensures bot.validWordList == old(bot.validWordList) + RoundWords(old(bot.letterRack), rackIndex, dictionary, wordSearch)
    {
      var startingLetter := LowerChar(bot.letterRack[rackIndex].ch);
      if startingLetter != JokerChar {
        SearchFromRackLetter(rackIndex, startingLetter);
      }
    }

    /** One round of `botFirstTurn`: the seed for the letter at `rackIndex`,
        searched with that letter out of the rack, and the letter put back. */
    method SearchFromRackLetter(rackIndex: int, startingLetter: char)
      requires 0 <= rackIndex < |bot.letterRack| && startingLetter == LowerChar(bot.letterRack[rackIndex].ch)
      modifies bot
      ensures bot.letterRack == old(bot.letterRack) && bot.name == old(bot.name) && bot.timesUp == old(bot.timesUp)
      ensures bot.validWordList == old(bot.validWordList) + Validated(OneMorePlaced(Generated([Seed(startingLetter)],
        dictionary, old(bot.letterRack)[..rackIndex] + old(bot.letterRack)[rackIndex + 1..])), wordSearch)
    {
      var initialWord := NewValidWord([startingLetter]);
      var tmpLetter := bot.letterRack[rackIndex];
      bot.letterRack := bot.letterRack[..rackIndex] + bot.letterRack[rackIndex + 1..];
      var flip := GetRandomInt(1);
      if flip != 0 {
        initialWord := initialWord.(isVertical := true);
      }
      initialWord := initialWord.(startingTileX := CenterPosition, startingTileY := CenterPosition,
        leftCount := CenterPosition, rightCount := CenterPosition);
      var possiblyValidWords := PossibleWordsGenerator([initialWord]);
      possiblyValidWords := OneMorePlaced(possiblyValidWords);
      bot.letterRack := bot.letterRack[..rackIndex] + [tmpLetter] + bot.letterRack[rackIndex..];
      assert bot.letterRack == old(bot.letterRack);
      PossibleWordsValidator(possiblyValidWords);
    }

    /** `boardCrawler`: from the given line on, every line is read from its
        first occupied cell and the confirmed words for it are appended; the
        calls follow `ScanLines`, and nothing happens once time is up. */
    method BoardCrawler(startingPosition: Vec2, grid: array2<Tile>, isVerticalFlag: bool) returns (ghost visited: seq<LineStart>)
      requires grid.Length0 == BoardDimension && grid.Length1 == BoardDimension && InBoard(startingPosition)
      modifies bot
      ensures bot.letterRack == old(bot.letterRack) && bot.name == old(bot.name) && bot.timesUp == old(bot.timesUp)
      ensures bot.timesUp ==> visited == [] && bot.validWordList == old(bot.validWordList)
      ensures !bot.timesUp ==> visited == ScanLines(startingPosition, isVerticalFlag)
      ensures Extends(old(bot.validWordList), bot.validWordList, wordSearch)
      ensures !bot.timesUp && NoDashTile(Snapshot(grid)) ==>
        bot.validWordList == old(bot.validWordList)
          + CrawlWords(Snapshot(grid), startingPosition, isVerticalFlag, dictionary, old(bot.letterRack), wordSearch)
      decreases if isVerticalFlag then 0 else 1,
        if isVerticalFlag then BoardMaxPosition - startingPosition.x else BoardMaxPosition - startingPosition.y
    {
      if bot.timesUp {
        return [];
      }
      ghost var g, rack := Snapshot(grid), bot.letterRack;
      var x, y := CrawlFirstLine(startingPosition, grid, isVerticalFlag);
      var isVertical := isVerticalFlag;
      ghost var crawled := bot.validWordList;
      var next: Vec2, more := Vec2(BoardMinPosition, BoardMinPosition), true;
      if isVertical && x < BoardMaxPosition {
        next := Vec2(x + 1, BoardMinPosition);
      } else if isVertical && x == BoardMaxPosition {
        more := false;
      } else if !isVertical && y < BoardMaxPosition {
        next := Vec2(BoardMinPosition, y + 1);
      } else {
        isVertical := true;
      }
      ScanLinesUnfold(startingPosition, isVerticalFlag);
      assert more <==> NextLine(startingPosition, isVerticalFlag).Some?;
      assert more ==> NextLine(startingPosition, isVerticalFlag) == Some(LineStart(next, isVertical));
      ghost var rest: seq<LineStart> := [];
      if more {
        rest := BoardCrawler(next, grid, isVertical);
      }
      if NoDashTile(g) {
        ghost var line := LineWords(g, startingPosition, isVerticalFlag, dictionary, rack, wordSearch);
        ghost var after := if more then CrawlWords(g, next, isVertical, dictionary, rack, wordSearch) else [];
        assert crawled == old(bot.validWordList) + line;
        assert bot.validWordList == crawled + after;
        assert CrawlWords(g, startingPosition, isVerticalFlag, dictionary, rack, wordSearch) == line + after;
        AppendTwice(old(bot.validWordList), line, after);
      }
      ExtendsTransitive(old(bot.validWordList), crawled, bot.validWordList, wordSearch);
      visited := [LineStart(startingPosition, isVerticalFlag)] + rest;
    }

    /** One line of `boardCrawler`: find the line's first occupied cell and,
        if there is one, crawl the line from it. */
    method CrawlFirstLine(startingPosition: Vec2, grid: array2<Tile>, isVertical: bool) returns (x: int, y: int)
      requires grid.Length0 == BoardDimension && grid.Length1 == BoardDimension && InBoard(startingPosition)
      modifies bot
      ensures bot.letterRack == old(bot.letterRack) && bot.name == old(bot.name) && bot.timesUp == old(bot.timesUp)
      ensures Extends(old(bot.validWordList), bot.validWordList, wordSearch)
      ensures if isVertical then x == startingPosition.x && startingPosition.y <= y <= BoardMaxPosition
        else y == startingPosition.y && startingPosition.x <= x <= BoardMaxPosition
      ensures NoDashTile(Snapshot(grid)) ==>
        bot.validWordList == old(bot.validWordList)
          + LineWords(Snapshot(grid), startingPosition, isVertical, dictionary, old(bot.letterRack), wordSearch)
    {
      var letterInBox;
      x, y, letterInBox := FirstLetterOnLine(startingPosition, grid, isVertical);
      if letterInBox != EmptyChar {
        CrawlLine(Vec2(x, y), grid, isVertical);
        if NoDashTile(Snapshot(grid)) {
          OccupiedLineBounded(Snapshot(grid), Vec2(x, y), isVertical);
        }
      } else {
        assert bot.validWordList == old(bot.validWordList) + [];
      }
    }

    /** The scan at the head of `boardCrawler`: along the line from the start
        to the first occupied cell, or to the line's last cell. */
    method FirstLetterOnLine(startingPosition: Vec2, grid: array2<Tile>, isVertical: bool) returns (x: int, y: int, letterInBox: char)
      requires grid.Length0 == BoardDimension && grid.Length1 == BoardDimension && InBoard(startingPosition)
      ensures InBoard(Vec2(x, y)) && letterInBox == grid[y, x].letter.ch
      ensures if isVertical then x == startingPosition.x && startingPosition.y <= y
        else y == startingPosition.y && startingPosition.x <= x
      ensures letterInBox == EmptyChar ==> LineIndex(Vec2(x, y), isVertical) == BoardMaxPosition
      ensures Vec2(x, y) == FirstLetterFrom(Snapshot(grid), startingPosition, isVertical)
    {
      ghost var g := Snapshot(grid);
      x := startingPosition.x;
      y := startingPosition.y;
      letterInBox := grid[y, x].letter.ch;
      while letterInBox == EmptyChar
        invariant InBoard(Vec2(x, y)) && letterInBox == grid[y, x].letter.ch
        invariant if isVertical then x == startingPosition.x && startingPosition.y <= y
          else y == startingPosition.y && startingPosition.x <= x
        invariant FirstLetterFrom(g, Vec2(x, y), isVertical) == FirstLetterFrom(g, startingPosition, isVertical)
        decreases if isVertical then BoardMaxPosition - y else BoardMaxPosition - x
      {
        if isVertical {
          if y != BoardMaxPosition {
            y := y + 1;
          } else {
            break;
          }
        } else {
          if x != BoardMaxPosition {
            x := x + 1;
          } else {
            break;
          }
        }
        letterInBox := grid[y, x].letter.ch;
      }
    }

    /** The body of `boardCrawler` for a line whose cell at `position` is
        occupied: read the line, cut it, generate and validate. */
    method CrawlLine(position: Vec2, grid: array2<Tile>, isVertical: bool)
      requires grid.Length0 == BoardDimension && grid.Length1 == BoardDimension && InBoard(position)
      requires grid[position.y, position.x].letter.ch != EmptyChar
      modifies bot
      ensures bot.letterRack == old(bot.letterRack) && bot.name == old(bot.name) && bot.timesUp == old(bot.timesUp)
      ensures Extends(old(bot.validWordList), bot.validWordList, wordSearch)
      ensures LetterBounded(LineWord(Snapshot(grid), position, isVertical).word) ==>
        bot.validWordList == old(bot.validWordList)
          + Validated(Generated(Cuts(LineWord(Snapshot(grid), position, isVertical)), dictionary, old(bot.letterRack)), wordSearch)
    {
      LastLetterReaches(Snapshot(grid), position, isVertical, BoardMaxPosition, LineIndex(position, isVertical));
      var lettersOnLine := GetLettersOnLine(position, isVertical, grid);
      var allPlacedLettersCombination := GetAllPossibilitiesOnLine(lettersOnLine);
      var possiblyValidWords := PossibleWordsGenerator(allPlacedLettersCombination);
      PossibleWordsValidator(possiblyValidWords);
      ValidatedFilter(possiblyValidWords, wordSearch);
    }
  }
}
