/** Reading a move given as text: a colour word and a vertex written as a
    column letter followed by a row number, "d4" or "q16".  Columns skip the
    letter i; lower-case letters name the columns from zero, while upper-case
    letters are read from column 25 on.  The row is the decimal number that
    follows the letter, counted from one. */
module TextMove {
  import opened Wrappers
  import opened Board

  /** The largest value of the engine's 32-bit int; reading a larger row
      number stores this value. */
  const IntMax := 2147483647

  /** The colour words accepted: "w", "white", "b" and "black". */
  function ParseColor(s: string): (c: Option<Color>)
    ensures c == Some(White) <==> s == "w" || s == "white"
    ensures c == Some(Black) <==> s == "b" || s == "black"
  {
    if s == "w" || s == "white" then Some(White)
    else if s == "b" || s == "black" then Some(Black)
    else None
  }

  predicate IsUpper(c: char) { 'A' <= c <= 'Z' }
  predicate IsLower(c: char) { 'a' <= c <= 'z' }
  predicate IsAlpha(c: char) { IsUpper(c) || IsLower(c) }
  predicate IsDigit(c: char) { '0' <= c <= '9' }

  /** The column a letter names: i (and I) are skipped, and the upper-case
      letters start at column 25. */
  function Column(c: char): (column: int)
    requires IsAlpha(c)
    ensures IsLower(c) ==> 0 <= column < 25
    ensures IsUpper(c) ==> column >= 25
    ensures IsLower(c) && c != 'i' ==> ColumnLetter(column) == c
  {
    if IsUpper(c) then
      if c < 'I' then 25 + (c as int - 'A' as int) else 25 + (c as int - 'A' as int) - 1
    else
      if c < 'i' then c as int - 'a' as int else (c as int - 'a' as int) - 1
  }

  /** The longest prefix of s made of decimal digits. */
  function LeadingDigits(s: string): (d: string)
    ensures d <= s
    ensures forall k :: 0 <= k < |d| ==> IsDigit(d[k])
    ensures |d| < |s| ==> !IsDigit(s[|d|])
  {
    if s == [] || !IsDigit(s[0]) then [] else [s[0]] + LeadingDigits(s[1..])
  }

  /** The value of a string of decimal digits, most significant first. */
  function DigitsValue(d: string): nat
    requires forall k :: 0 <= k < |d| ==> IsDigit(d[k])
  {
    if d == [] then 0
    else
      assert IsDigit(d[|d| - 1]);
      DigitsValue(d[..|d| - 1]) * 10 + (d[|d| - 1] as int - '0' as int)
  }

  /** Stream extraction of an int from text that starts with a digit: the
      leading digits are read, and a value beyond the int range stores the
      largest int. */
  function ReadInt(s: string): (n: nat)
    ensures n <= IntMax
    ensures DigitsValue(LeadingDigits(s)) <= IntMax ==> n == DigitsValue(LeadingDigits(s))
    ensures DigitsValue(LeadingDigits(s)) > IntMax ==> n == IntMax
  {
    var v := DigitsValue(LeadingDigits(s));
    if v > IntMax then IntMax else v
  }

  /** The checks the engine makes on a vertex text, in order: at least two
      characters, a letter then a digit, not a lower-case i, and a column and
      row below the board size. */
  predicate PassesChecks(v: string, size: int) {
    && |v| >= 2 && IsAlpha(v[0]) && IsDigit(v[1]) && v[0] != 'i'
    && Column(v[0]) < size && ReadInt(v[1..]) - 1 < size
  }

  /** Text past the first two characters is never looked at beyond the
      leading digits: "b007" names the same vertex as "b7", and "c5xyz" the
      same as "c5". */
  lemma TrailingIgnored(size: int)
    requires size >= 7
    ensures ParseVertex("b007", size) == ParseVertex("b7", size) == Some((1, 6))
    ensures ParseVertex("c5xyz", size) == ParseVertex("c5", size) == Some((2, 4))
  {
    assert LeadingDigits("007") == "007";
    assert "007"[..2] == "00" && "00"[..1] == "0" && "0"[..0] == "";
    assert DigitsValue("007") == 7;
    assert LeadingDigits("7") == "7";
    assert LeadingDigits("5xyz") == "5";
    assert LeadingDigits("5") == "5";
  }

  /** The column and row named by the vertex text, or None when the text is
      too short, does not start with a letter and a digit, starts with a
      lower-case i, or names a column or row at or past the board size.  As
      the engine reads it: a row number of zero is accepted and gives row
      -1. */
  function ParseVertex(v: string, size: int): (r: Option<(int, int)>)
    ensures r.Some? ==> |v| >= 2 && IsAlpha(v[0]) && IsDigit(v[1]) && v[0] != 'i'
    ensures r.Some? ==> r.value.0 == Column(v[0]) && r.value.1 == ReadInt(v[1..]) - 1
    ensures r.Some? ==> 0 <= r.value.0 < size && -1 <= r.value.1 < size
    ensures r.Some? <==> PassesChecks(v, size)
  {
    if |v| < 2 || !IsAlpha(v[0]) || !IsDigit(v[1]) || v[0] == 'i' then None
    else
      var column := Column(v[0]);
      var row := ReadInt(v[1..]) - 1;
      if row >= size || column >= size then None
      else Some((column, row))
  }

  /** Every check the engine makes passes on "a0", which names row -1, off
      the board. */
  lemma RowZeroAccepted(size: int)
    requires size > 0
    ensures ParseVertex("a0", size) == Some((0, -1))
  {
    assert LeadingDigits("a0"[1..]) == "0";
  }

  /** The vertex reading with the missing lower bound on the row: a row
      number of zero is rejected as well. */
  function ParseVertexChecked(v: string, size: int): (r: Option<(int, int)>)
    ensures r.Some? ==> 0 <= r.value.0 < size && 0 <= r.value.1 < size
    ensures r.Some? <==> ParseVertex(v, size).Some? && ParseVertex(v, size).value.1 >= 0
    ensures r.Some? ==> r == ParseVertex(v, size)
  {
    match ParseVertex(v, size)
    case None => None
    case Some(p) => if p.1 < 0 then None else Some(p)
  }

  /** Upper-case column letters always name a column of 25 or more, so on a
      board of at most 25 lines they are always rejected. */
  lemma UpperCaseRejected(v: string, size: int)
    requires |v| >= 1 && IsUpper(v[0]) && size <= 25
    ensures ParseVertex(v, size) == None
  {
  }

  /** The lower-case letter of a column below 25, skipping i. */
  function ColumnLetter(column: nat): (c: char)
    requires column < 25
    ensures IsLower(c) && c != 'i'
  {
    if column < 8 then ('a' as int + column) as char else ('a' as int + column + 1) as char
  }

  /** The decimal digits of n, most significant first, without leading
      zeros. */
  function NatDigits(n: nat): (d: string)
    ensures |d| >= 1
    ensures forall k :: 0 <= k < |d| ==> IsDigit(d[k])
    decreases n
  {
    var last := ('0' as int + n % 10) as char;
    if n < 10 then [last] else NatDigits(n / 10) + [last]
  }

  /** Reading the digits of n back gives n. */
  lemma {:induction false} NatDigitsValue(n: nat)
    ensures DigitsValue(NatDigits(n)) == n
    decreases n
  {
    var d := NatDigits(n);
    if n >= 10 {
      NatDigitsValue(n / 10);
      assert d[..|d| - 1] == NatDigits(n / 10);
    } else {
      assert d[..|d| - 1] == [];
    }
  }

  /** A string of digits is its own leading digits. */
  lemma {:induction false} AllDigitsLeading(d: string)
    requires forall k :: 0 <= k < |d| ==> IsDigit(d[k])
    ensures LeadingDigits(d) == d
    decreases |d|
  {
    if d != [] {
      AllDigitsLeading(d[1..]);
    }
  }

  /** The text of an on-board vertex: its column letter and its row number
      counted from one. */
  function VertexText(column: nat, row: nat): string
    requires column < 25
  {
    [ColumnLetter(column)] + NatDigits(row + 1)
  }

  /** Writing a vertex of a board of at most 25 lines as text and reading it
      back gives the same column and row, whichever reading is used. */
  lemma VertexRoundTrip(column: nat, row: nat, size: int)
    requires column < size && row < size && size <= 25
    ensures ParseVertex(VertexText(column, row), size) == Some((column, row))
    ensures ParseVertexChecked(VertexText(column, row), size) == Some((column, row))
  {
    var v := VertexText(column, row);
    var d := NatDigits(row + 1);
    assert v[1..] == d;
    assert v[0] == ColumnLetter(column);
    AllDigitsLeading(d);
    NatDigitsValue(row + 1);
    assert ReadInt(v[1..]) == row + 1;
  }
}
