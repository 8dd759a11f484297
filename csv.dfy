/**
 * The CSV parse inside `fetchData` of `useGoogleSheets`: the body is trimmed and
 * cut at every line feed; line 0 is the header, every later line one row. Each row
 * maps every trimmed header name to the trimmed field in the same column, or to
 * the empty string when the line has fewer fields. Commas inside quotes are not
 * special.
 */
module Csv {
  import opened JsText

  /** One parsed line: a dictionary from trimmed header name to trimmed field. */
  type Row = map<string, string>

  /** `values[index]?.trim() || ''`. */
  function Field(values: seq<string>, index: nat): string {
    if index < |values| then Trim(values[index]) else ""
  }

  /** The keys every row gets: the trimmed header names. */
  function HeaderKeys(headers: seq<string>): set<string> {
    set i | 0 <= i < |headers| :: Trim(headers[i])
  }

  /**
   * The row that `headers.forEach((header, index) => row[header.trim()] = ...)` builds,
   * one column after the other, so that a later column overwrites an earlier one
   * with the same name.
   */
  function RowOf(headers: seq<string>, values: seq<string>): (row: Row)
    ensures row.Keys == HeaderKeys(headers)
    decreases |headers|
  {
    if |headers| == 0 then map[]
    else
      var n := |headers| - 1;
      var prefix := RowOf(headers[..n], values);
      assert HeaderKeys(headers) == HeaderKeys(headers[..n]) + {Trim(headers[n])} by {
        forall k | k in HeaderKeys(headers) ensures k in HeaderKeys(headers[..n]) + {Trim(headers[n])} {
          var i :| 0 <= i < |headers| && k == Trim(headers[i]);
          if i < n { assert headers[..n][i] == headers[i]; }
        }
        forall k | k in HeaderKeys(headers[..n]) ensures k in HeaderKeys(headers) {
          var i :| 0 <= i < n && k == Trim(headers[..n][i]);
          assert headers[..n][i] == headers[i];
        }
      }
      prefix[Trim(headers[n]) := Field(values, n)]
  }

  /** The lines of the trimmed body; line 0 is the header. */
  function Lines(text: string): (lines: seq<string>)
    ensures |lines| >= 1
  {
    Split(Trim(text), '\n')
  }

  function Headers(text: string): seq<string> {
    Split(Lines(text)[0], ',')
  }

  /** `lines.slice(1).map(line => ...)`: the whole parse, as a value. */
  function Parse(text: string): seq<Row> {
    var lines := Lines(text);
    seq(|lines| - 1, i requires 0 <= i < |lines| - 1 => RowOf(Headers(text), Split(lines[i + 1], ',')))
  }

  /** Row `j` of the parse is built from line `j + 1`. */
  lemma {:induction false} ParseAt(text: string, j: nat)
    requires j < |Lines(text)| - 1
    ensures |Parse(text)| == |Lines(text)| - 1
    ensures Parse(text)[j] == RowOf(Headers(text), Split(Lines(text)[j + 1], ','))
  {
  }

  /** Appending the row built from line `k` extends the first `k - 1` rows of the parse by one. */
  lemma {:induction false} ParseStep(text: string, k: nat, rows: seq<Row>, row: Row)
    requires 1 <= k < |Lines(text)|
    requires rows == Parse(text)[..k - 1]
    requires row == RowOf(Headers(text), Split(Lines(text)[k], ','))
    ensures rows + [row] == Parse(text)[..k]
  {
    ParseAt(text, k - 1);
    PrefixGrows(Parse(text), k - 1, row);
  }

  lemma {:induction false} PrefixGrows(rows: seq<Row>, j: nat, row: Row)
    requires j < |rows| && rows[j] == row
    ensures rows[..j] + [row] == rows[..j + 1]
  {
  }

  // ---------------------------------------------------------------- the code that runs

  /** The `forEach` over the headers for one data line, filling a fresh dictionary. */
  method BuildRow(headers: seq<string>, line: string) returns (row: Row)
    ensures row == RowOf(headers, Split(line, ','))
  {
    var values := Split(line, ',');
    row := map[];
    for index := 0 to |headers|
      invariant row == RowOf(headers[..index], values)
    {
      assert headers[..index + 1][..index] == headers[..index];
      row := row[Trim(headers[index]) := Field(values, index)];
    }
    assert headers[..|headers|] == headers;
  }

  /** Lines 35-45 of `fetchData`: trim, split into lines, take the header, build every row. */
  method ParseText(text: string) returns (rows: seq<Row>)
    ensures rows == Parse(text)
  {
    var lines := Split(Trim(text), '\n');
    var headers := Split(lines[0], ',');
    ghost var all := Parse(text);
    assert lines == Lines(text) && headers == Headers(text);
    rows := [];
    for k := 1 to |lines|
      invariant rows == all[..k - 1]
    {
      var row := BuildRow(headers, lines[k]);
      ParseStep(text, k, rows, row);
      rows := rows + [row];
    }
    assert all[..|lines| - 1] == all;
  }

  // ---------------------------------------------------------------- properties of the parse

  /** There is one row per line feed left in the trimmed body: the line count minus the header. */
  lemma {:induction false} RowCount(text: string)
    ensures |Parse(text)| == |Lines(text)| - 1 == Occurrences(Trim(text), '\n')
  {
  }

  /** An empty body, or one whose trimmed form is a single line, gives no rows (and no error). */
  lemma {:induction false} HeaderOnlyHasNoRows(text: string)
    requires '\n' !in Trim(text)
    ensures Parse(text) == []
  {
    RowCount(text);
  }

  /** Every row has exactly the trimmed header names as keys. */
  lemma {:induction false} RowKeys(text: string, r: nat)
    requires r < |Parse(text)|
    ensures Parse(text)[r].Keys == HeaderKeys(Headers(text))
  {
    assert Parse(text)[r] == RowOf(Headers(text), Split(Lines(text)[r + 1], ','));
  }

  /**
   * The value under a header name comes from the LAST column with that name: the
   * trimmed field of that column, or '' when the line is shorter.
   */
  lemma {:induction false} LastColumnWins(headers: seq<string>, values: seq<string>, i: nat)
    requires i < |headers|
    requires forall j :: i < j < |headers| ==> Trim(headers[j]) != Trim(headers[i])
    ensures RowOf(headers, values)[Trim(headers[i])] == Field(values, i)
    decreases |headers|
  {
    var n := |headers| - 1;
    RowOfStep(headers, values);
    if i < n {
      forall j | i < j < n ensures Trim(headers[..n][j]) != Trim(headers[..n][i]) {
        assert headers[..n][j] == headers[j];
      }
      assert headers[..n][i] == headers[i];
      LastColumnWins(headers[..n], values, i);
      assert Trim(headers[n]) != Trim(headers[i]);
    }
  }

  /** The last column is written last. */
  lemma {:induction false} RowOfStep(headers: seq<string>, values: seq<string>)
    requires |headers| > 0
    ensures RowOf(headers, values) == RowOf(headers[..|headers| - 1], values)[Trim(headers[|headers| - 1]) := Field(values, |headers| - 1)]
  {
  }

  /** With distinct header names, column `i` of a line lands under header `i`. */
  lemma {:induction false} ColumnValue(headers: seq<string>, values: seq<string>, i: nat)
    requires i < |headers|
    requires forall j, k :: 0 <= j < k < |headers| ==> Trim(headers[j]) != Trim(headers[k])
    ensures RowOf(headers, values)[Trim(headers[i])] == Field(values, i)
  {
    LastColumnWins(headers, values, i);
  }

  /**
   * In the whole parse: row `r` holds, under the name of header column `i`, the trimmed
   * `i`-th comma field of line `r + 1`, or '' when that line is shorter, provided no
   * later column has the same name.
   */
  lemma {:induction false} ParsedValue(text: string, r: nat, i: nat)
    requires r < |Parse(text)| && i < |Headers(text)|
    requires forall j :: i < j < |Headers(text)| ==> Trim(Headers(text)[j]) != Trim(Headers(text)[i])
    ensures var key := Trim(Headers(text)[i]);
      key in Parse(text)[r] && Parse(text)[r][key] == Field(Split(Lines(text)[r + 1], ','), i)
  {
    assert Parse(text)[r] == RowOf(Headers(text), Split(Lines(text)[r + 1], ','));
    LastColumnWins(Headers(text), Split(Lines(text)[r + 1], ','), i);
  }

  /** Fields beyond the header count are ignored. */
  lemma {:induction false} ExtraFieldsIgnored(headers: seq<string>, values: seq<string>, extra: seq<string>)
    requires |values| >= |headers|
    ensures RowOf(headers, values + extra) == RowOf(headers, values)
    decreases |headers|
  {
    if |headers| > 0 {
      var n := |headers| - 1;
      ExtraFieldsIgnored(headers[..n], values, extra);
      assert (values + extra)[n] == values[n];
    }
  }

  /** A line with fewer fields than headers (a blank interior line, say) reads as '' in the missing columns. */
  lemma {:induction false} MissingFieldsEmpty(headers: seq<string>, values: seq<string>, k: string)
    requires k in RowOf(headers, values)
    requires forall j :: 0 <= j < |headers| && j < |values| ==> Trim(headers[j]) != k || Trim(values[j]) == ""
    ensures RowOf(headers, values)[k] == ""
    decreases |headers|
  {
    var n := |headers| - 1;
    if Trim(headers[n]) != k {
      RowOfPrefixKeys(headers, k);
      MissingFieldsEmpty(headers[..n], values, k);
    }
  }

  lemma {:induction false} RowOfPrefixKeys(headers: seq<string>, k: string)
    requires |headers| > 0
    requires k in HeaderKeys(headers) && k != Trim(headers[|headers| - 1])
    ensures k in HeaderKeys(headers[..|headers| - 1])
  {
    var i :| 0 <= i < |headers| && k == Trim(headers[i]);
    assert headers[..|headers| - 1][i] == headers[i];
  }

  /** An interior blank line still yields a row, with every value ''. */
  lemma {:induction false} BlankLineRow(text: string, r: nat, k: string)
    requires r < |Parse(text)|
    requires Lines(text)[r + 1] == ""
    requires k in Parse(text)[r]
    ensures Parse(text)[r][k] == ""
  {
    assert Split("", ',') == [""];
    assert Parse(text)[r] == RowOf(Headers(text), [""]);
    MissingFieldsEmpty(Headers(text), [""], k);
  }

  /** Splitting does not respect quotes: a quoted comma still cuts the field in two. */
  lemma {:induction false} QuotesIgnored(line: string)
    requires line == "\"Acme, Inc\",3"
    ensures Split(line, ',') == ["\"Acme", " Inc\"", "3"]
  {
    var parts := ["\"Acme", " Inc\"", "3"];
    assert Join(parts[2..], ',') == "3";
    assert Join(parts[1..], ',') == " Inc\"" + [','] + "3";
    assert Join(parts, ',') == line;
    assert ',' !in parts[0] && ',' !in parts[1] && ',' !in parts[2];
    SplitJoin(parts, ',');
  }
}
