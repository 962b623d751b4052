/**
 * The CSV export of one record: a header line of the record's keys joined
 * with ',', a newline, and a line of its values in the same order joined with
 * ','. Nested objects are written as their JSON text and everything else as
 * its plain text; nothing is quoted or escaped.
 *
 * The two renderings, `String(value)` and `JSON.stringify(value)`, are
 * carried by each value as text.
 */
module CsvFormat {
  import opened Js
  import opened Strings

  /** A record value: a plain value with its text, or an object with its JSON text. */
  datatype Cell = Scalar(text: string) | Structured(json: string)

  /** `typeof value === 'object' ? JSON.stringify(value) : value`. */
  function CellText(c: Cell): string {
    match c
    case Scalar(text) => text
    case Structured(json) => json
  }

  function CellTexts(cells: seq<Cell>): (r: seq<string>)
    ensures |r| == |cells|
    ensures forall i :: 0 <= i < |cells| ==> r[i] == CellText(cells[i])
  {
    if cells == [] then [] else [CellText(cells[0])] + CellTexts(cells[1..])
  }

  /** `parts.join(sep)`. */
  function Join(parts: seq<string>, sep: char): string {
    if parts == [] then ""
    else if |parts| == 1 then parts[0]
    else parts[0] + [sep] + Join(parts[1..], sep)
  }

  /** Cutting a text at every sep, the reading a CSV consumer applies. */
  function Split(s: string, sep: char): (r: seq<string>)
    ensures |r| >= 1
    decreases |s|
  {
    var k := IndexOf(s, sep);
    if k < 0 then [s] else [s[..k]] + Split(s[k + 1..], sep)
  }

  /** No part holds c. */
  predicate Avoids(parts: seq<string>, c: char) {
    forall i :: 0 <= i < |parts| ==> c !in parts[i]
  }

  /**
   * `formatToCSV`: when no key holds a newline, the text up to the first
   * newline is the header, the keys joined with ','.
   */
  function FormatToCSV(data: Obj<Cell>): (csv: string)
    ensures Avoids(Keys(data), '\n') ==>
      var k := IndexOf(csv, '\n'); 0 <= k && csv[..k] == Join(Keys(data), ',')
  {
    var header := Join(Keys(data), ',');
    var csv := header + "\n" + Join(CellTexts(Values(data)), ',');
    if Avoids(Keys(data), '\n') then
      JoinAvoids(Keys(data), ',', '\n');
      assert csv[..|header|] == header;
      IndexOfIsFirst(csv, '\n', |header|);
      csv
    else
      csv
  }

  /** Joining adds no character but the separator. */
  lemma {:induction false} JoinAvoids(parts: seq<string>, sep: char, c: char)
    requires Avoids(parts, c) && c != sep
    ensures c !in Join(parts, sep)
  {
    if |parts| > 1 {
      JoinAvoids(parts[1..], sep, c);
    }
  }

  /** Splitting undoes joining when no part holds the separator. */
  lemma {:induction false} SplitJoin(parts: seq<string>, sep: char)
    requires |parts| >= 1 && Avoids(parts, sep)
    ensures Split(Join(parts, sep), sep) == parts
  {
    if |parts| > 1 {
      var x, rest := parts[0], parts[1..];
      var s := Join(parts, sep);
      assert s == x + [sep] + Join(rest, sep);
      assert s[..|x|] == x;
      IndexOfIsFirst(s, sep, |x|);
      assert s[|x| + 1..] == Join(rest, sep);
      SplitJoin(rest, sep);
    }
  }

  /**
   * When no key or value text holds ',' or a newline, the output is two
   * lines, and cutting them at ',' gives back the keys and the value texts:
   * as many columns in the header as in the data line.
   */
  lemma CsvRoundTrip(data: Obj<Cell>)
    requires |data| >= 1
    requires Avoids(Keys(data), ',') && Avoids(Keys(data), '\n')
    requires Avoids(CellTexts(Values(data)), ',') && Avoids(CellTexts(Values(data)), '\n')
    ensures var lines := Split(FormatToCSV(data), '\n');
      && |lines| == 2
      && Split(lines[0], ',') == Keys(data)
      && Split(lines[1], ',') == CellTexts(Values(data))
      && |Split(lines[0], ',')| == |Split(lines[1], ',')|
  {
    var header, row := Join(Keys(data), ','), Join(CellTexts(Values(data)), ',');
    JoinAvoids(Keys(data), ',', '\n');
    JoinAvoids(CellTexts(Values(data)), ',', '\n');
    assert FormatToCSV(data) == Join([header, row], '\n');
    SplitJoin([header, row], '\n');
    SplitJoin(Keys(data), ',');
    SplitJoin(CellTexts(Values(data)), ',');
  }

  /** An empty record gives an empty header, a newline and an empty data line. */
  lemma EmptyRecordCsv()
    ensures FormatToCSV([]) == "\n"
  {
  }

  /**
   * Values are not quoted: a value text holding ',' reads back as two
   * columns under a single key.
   */
  lemma CommaInValueShiftsColumns(key: string, x: string, y: string)
    requires ',' !in key && '\n' !in key
    requires ',' !in x && '\n' !in x && ',' !in y && '\n' !in y
    ensures var lines := Split(FormatToCSV([(key, Scalar(x + [','] + y))]), '\n');
      && |lines| == 2
      && Split(lines[0], ',') == [key]
      && Split(lines[1], ',') == [x, y]
  {
    var data := [(key, Scalar(x + [','] + y))];
    var v := x + [','] + y;
    assert Keys(data) == [key];
    assert CellTexts(Values(data)) == [v];
    assert Join([key], ',') == key;
    assert Join([v], ',') == v;
    assert v == Join([x, y], ',');
    assert '\n' !in v;
    assert FormatToCSV(data) == Join([key, v], '\n');
    SplitJoin([key, v], '\n');
    SplitJoin([key], ',');
    SplitJoin([x, y], ',');
  }
}
