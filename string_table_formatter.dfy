/**
 * StringTableFormatter: lays out a titled table of text rows. The platform line
 * separator is a parameter.
 *
 *   <sep>
 *   ====...====<sep>        (tableWidth '=')
 *   | title<sep>
 *   ----...----<sep>        (tableWidth '-')
 *   | row 1<sep> ... | row n<sep>
 *   ====...====<sep>
 */
module StringTableFormatter {

  const TABLE_SIDE_BORDER: char := '|'
  const TABLE_TITLE_SEPARATOR: char := '-'
  const TABLE_LINE_BORDER: char := '='

  /** StringUtils.repeat: `count` copies of `ch`; nothing for a count of zero or less. */
  function Repeat(ch: char, count: int): (r: string)
    ensures |r| == if count <= 0 then 0 else count
    ensures forall i :: 0 <= i < |r| ==> r[i] == ch
    decreases count
  {
    if count <= 0 then "" else [ch] + Repeat(ch, count - 1)
  }

  /** The width a border takes: the table width, or nothing when it is negative. */
  function Width(tableWidth: int): nat
  {
    if tableWidth <= 0 then 0 else tableWidth
  }

  /** A row of the table: the side border, a space, the text. */
  function Line(text: string): string
  {
    [TABLE_SIDE_BORDER, ' '] + text
  }

  /** The items with one separator between each neighbouring pair. */
  function Join(items: seq<string>, separator: string): string
  {
    if |items| == 0 then ""
    else if |items| == 1 then items[0]
    else items[0] + separator + Join(items[1..], separator)
  }

  /** Every row turned into a table line, in order. */
  function Lines(rows: seq<string>): (lines: seq<string>)
    ensures |lines| == |rows|
    ensures forall i :: 0 <= i < |rows| ==> lines[i] == Line(rows[i])
  {
    if rows == [] then [] else [Line(rows[0])] + Lines(rows[1..])
  }

  /** The opening: a separator, the '=' border, the title row and the '-' rule, each line ended. */
  function FormatTitle(tableWidth: int, title: string, separator: string): (r: string)
    ensures |r| == 4 * |separator| + 2 * Width(tableWidth) + 2 + |title|
    ensures var top := separator + Repeat(TABLE_LINE_BORDER, tableWidth) + separator;
            r[..|top|] == top
  {
    var tableTopBorder := Repeat(TABLE_LINE_BORDER, tableWidth) + separator;
    var tableTitleRow := Line(title) + separator;
    var tableTitleBottomBorder := Repeat(TABLE_TITLE_SEPARATOR, tableWidth) + separator;
    separator + tableTopBorder + tableTitleRow + tableTitleBottomBorder
  }

  /** The rows joined by the separator, with one more separator at the end. */
  function FormatBody(rows: seq<string>, separator: string): (r: string)
    ensures rows == [] ==> r == separator
    ensures rows != [] ==> 2 + |rows[0]| <= |r| && r[..2 + |rows[0]|] == Line(rows[0])
  {
    Join(Lines(rows), separator) + separator
  }

  /** The closing '=' border and separator. */
  function FormatBottomBorder(tableWidth: int, separator: string): (r: string)
    ensures |r| == Width(tableWidth) + |separator|
    ensures forall i :: 0 <= i < Width(tableWidth) ==> r[i] == TABLE_LINE_BORDER
  {
    Repeat(TABLE_LINE_BORDER, tableWidth) + separator
  }

  /**
   * format. With w the width (zero when negative), s the separator's length and n rows the
   * length is s + 3(w + s) + (2 + |title| + s) + the rows' text + n(2 + s) when n >= 1;
   * the body shrinks to s alone when n = 0.
   */
  function Format(tableWidth: int, title: string, rows: seq<string>, separator: string): (r: string)
    ensures var w, s, n := Width(tableWidth), |separator|, |rows|;
            |r| == s + 3 * (w + s) + (2 + |title| + s) + (if n == 0 then s else SumLengths(rows) + n * (2 + s))
  {
    assert rows != [] ==> |FormatBody(rows, separator)| == SumLengths(rows) + |rows| * (2 + |separator|) by {
      if rows != [] {
        BodyIsTerminatedLines(rows, separator);
        TerminatedLinesLength(rows, separator);
      }
    }
    FormatTitle(tableWidth, title, separator) + FormatBody(rows, separator) + FormatBottomBorder(tableWidth, separator)
  }

  // ---------------------------------------------------------------------------------------
  // A second, line-by-line description of the body and the whole table

  /** Each row on its own line, every line ended by the separator. */
  function TerminatedLines(rows: seq<string>, separator: string): string
  {
    if rows == [] then "" else Line(rows[0]) + separator + TerminatedLines(rows[1..], separator)
  }

  /** The body of a non-empty table is its rows, each ended by the separator, in order. */
  lemma {:induction false} BodyIsTerminatedLines(rows: seq<string>, separator: string)
    requires rows != []
    ensures FormatBody(rows, separator) == TerminatedLines(rows, separator)
  {
    if |rows| == 1 {
      assert rows[1..] == [];
    } else {
      BodyIsTerminatedLines(rows[1..], separator);
      assert Lines(rows)[1..] == Lines(rows[1..]);
      calc {
        FormatBody(rows, separator);
        Join(Lines(rows), separator) + separator;
        Line(rows[0]) + separator + Join(Lines(rows[1..]), separator) + separator;
        Line(rows[0]) + separator + FormatBody(rows[1..], separator);
        Line(rows[0]) + separator + TerminatedLines(rows[1..], separator);
      }
    }
  }

  /** The table opens with a separator, the top border and a separator. */
  lemma FormatStartsWithTopBorder(tableWidth: int, title: string, rows: seq<string>, separator: string)
    ensures var top := separator + Repeat(TABLE_LINE_BORDER, tableWidth) + separator;
            var out := Format(tableWidth, title, rows, separator);
            |top| <= |out| && out[..|top|] == top
  {
    var top := separator + Repeat(TABLE_LINE_BORDER, tableWidth) + separator;
    var opening := FormatTitle(tableWidth, title, separator);
    var rest := FormatBody(rows, separator) + FormatBottomBorder(tableWidth, separator);
    assert Format(tableWidth, title, rows, separator) == opening + rest;
    assert (opening + rest)[..|top|] == opening[..|top|];
  }

  /** The table, line by line: top border, title, title rule, the rows, bottom border. */
  lemma FormatLayout(tableWidth: int, title: string, rows: seq<string>, separator: string)
    ensures Format(tableWidth, title, rows, separator)
      == separator
       + (Repeat('=', tableWidth) + separator)
       + ("| " + title + separator)
       + (Repeat('-', tableWidth) + separator)
       + (if rows == [] then separator else TerminatedLines(rows, separator))
       + (Repeat('=', tableWidth) + separator)
  {
    if rows != [] {
      BodyIsTerminatedLines(rows, separator);
    }
    assert Line(title) == "| " + title;
  }

  /** The table ends with the bottom border and a separator. */
  lemma FormatEndsWithBottomBorder(tableWidth: int, title: string, rows: seq<string>, separator: string)
    ensures var bottom := Repeat('=', tableWidth) + separator;
            var out := Format(tableWidth, title, rows, separator);
            |bottom| <= |out| && out[|out| - |bottom|..] == bottom
  {
    var bottom := Repeat('=', tableWidth) + separator;
    var front := FormatTitle(tableWidth, title, separator) + FormatBody(rows, separator);
    assert Format(tableWidth, title, rows, separator) == front + bottom;
  }

  // ---------------------------------------------------------------------------------------
  // Length

  /** The total length of the rows' text. */
  function SumLengths(rows: seq<string>): nat
  {
    if rows == [] then 0 else |rows[0]| + SumLengths(rows[1..])
  }

  lemma {:induction false} TerminatedLinesLength(rows: seq<string>, separator: string)
    ensures |TerminatedLines(rows, separator)| == SumLengths(rows) + |rows| * (2 + |separator|)
  {
    if rows != [] {
      TerminatedLinesLength(rows[1..], separator);
    }
  }
}
