/** Turning the characters a player typed into letters with their bag values. */
module LetterCreators {
  import opened Common
  import opened LetterBags

  /** The character code of 'a': the offset into the value table. */
  const IndexRectifier: int := 97

  /** A created letter; its value is undefined when the character code falls
      outside the value table. */
  datatype CreatedLetter = CreatedLetter(ch: char, value: Option<int>)

  /** The value table entry at `code - 97`, if there is one. */
  function ValueAt(c: char): Option<int> {
    var k := c as int - IndexRectifier;
    if 0 <= k < KindCount then Some(GameLettersValue[k]) else None
  }

  /** Creates one letter per one-character string; fails on the first string
      that is not exactly one character. */
  function CreateAll(chars: seq<string>): (r: Result<seq<CreatedLetter>>)
    ensures r.Err? <==> exists i :: 0 <= i < |chars| && |chars[i]| != 1
    ensures r.Ok? ==> |r.value| == |chars|
    ensures r.Ok? ==> forall i :: 0 <= i < |chars| ==>
      r.value[i] == CreatedLetter(UpperChar(chars[i][0]), ValueAt(chars[i][0]))
  {
    if chars == [] then Ok([])
    else if |chars[0]| != 1 then Err("Invalid char entered")
    else
      match CreateAll(chars[1..])
      case Err(m) => Err(m)
      case Ok(rest) => Ok([CreatedLetter(UpperChar(chars[0][0]), ValueAt(chars[0][0]))] + rest)
  }

  /** `createLetters`: rejects a null or empty list, then creates the letters. */
  function CreateLetters(chars: Option<seq<string>>): (r: Result<seq<CreatedLetter>>)
    ensures chars.None? ==> r == Err("null chars were given")
    ensures chars == Some([]) ==> r == Err("No chars were given")
    ensures r.Ok? <==> chars.Some? && chars.value != [] && forall i :: 0 <= i < |chars.value| ==> |chars.value[i]| == 1
    ensures r.Ok? ==> |r.value| == |chars.value|
    ensures r.Ok? ==> forall i :: 0 <= i < |chars.value| ==> r.value[i].ch == UpperChar(chars.value[i][0])
  {
    match chars
    case None => Err("null chars were given")
    case Some(cs) =>
      if |cs| == 0 then Err("No chars were given") else CreateAll(cs)
  }

  /** A lower-case letter gets the bag value of its upper-case kind. */
  lemma LowerCaseValueIsBagValue(c: char)
    requires IsLowerAscii(c)
    ensures var k := c as int - IndexRectifier;
      0 <= k < 26 && GameLettersLetters[k] == UpperChar(c) && ValueAt(c) == Some(GameLettersValue[k])
  {
    KindChar(c as int - IndexRectifier);
  }
}
