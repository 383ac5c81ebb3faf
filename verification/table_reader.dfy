/** `get_table_values` (harvest/plot_xs.py): a cross-section table file becomes
    three parallel columns — mass, cross-section, uncertainty — in file order. */
module TableReader {
  import opened Results
  import opened Whitespace

  /** Python's `float(...)` on one token, left abstract: `None` where Python
      raises `ValueError`. */
  type Parser = string -> Option<real>

  /** The three lists `m`, `xs`, `unc` returned by `get_table_values`. */
  datatype Table = Table(m: seq<real>, xs: seq<real>, unc: seq<real>)

  /** One parsed line. */
  datatype Row = Row(m: real, xs: real, unc: real)

  /** Why reading stopped: `line` is the 0-based line number. `MissingToken`
      is the `IndexError` of `line.split()[column]`; `BadFloat` is the
      `ValueError` of `float(token)`. */
  datatype LineError =
    | MissingToken(line: nat, column: nat)
    | BadFloat(line: nat, token: string)

  /** The columns have one entry each per row. */
  predicate Parallel(t: Table) {
    |t.m| == |t.xs| == |t.unc|
  }

  /** A line the reader accepts: three tokens that all parse. */
  predicate RowOk(line: string, parse: Parser) {
    var ts := Split(line);
    |ts| >= 3 && parse(ts[0]).Some? && parse(ts[1]).Some? && parse(ts[2]).Some?
  }

  /** Every line is accepted. */
  predicate AllRowsOk(lines: seq<string>, parse: Parser) {
    forall i | 0 <= i < |lines| :: RowOk(lines[i], parse)
  }

  /** The row of an accepted line: tokens 0, 1 and 2, converted. */
  function RowOf(line: string, parse: Parser): Row
    requires RowOk(line, parse)
  {
    var ts := Split(line);
    Row(parse(ts[0]).value, parse(ts[1]).value, parse(ts[2]).value)
  }

  /** One column of one line: index the token, then convert it. */
  function Column(ts: seq<string>, k: nat, n: nat, parse: Parser): Result<real, LineError> {
    if |ts| <= k then Err(MissingToken(n, k))
    else match parse(ts[k])
      case None => Err(BadFloat(n, ts[k]))
      case Some(v) => Ok(v)
  }

  /** Line `n` of the table: columns 0, 1 and 2 in turn, each failing before
      the next is looked at; further tokens are ignored. */
  function ReadRow(line: string, n: nat, parse: Parser): (r: Result<Row, LineError>)
    ensures r.Ok? <==> RowOk(line, parse)
    ensures r.Ok? ==> r.value == RowOf(line, parse)
    ensures r.Err? ==> r.error.line == n
    ensures r.Err? && r.error.MissingToken? ==>
      r.error.column == |Split(line)| < 3
      && forall k | 0 <= k < r.error.column :: parse(Split(line)[k]).Some?
    ensures r.Err? && r.error.BadFloat? ==>
      exists k | 0 <= k < 3 && k < |Split(line)| ::
        && Split(line)[k] == r.error.token && parse(Split(line)[k]).None?
        && forall j | 0 <= j < k :: parse(Split(line)[j]).Some?
  {
    var ts := Split(line);
    var m :- Column(ts, 0, n, parse);
    var xs :- Column(ts, 1, n, parse);
    var unc :- Column(ts, 2, n, parse);
    Ok(Row(m, xs, unc))
  }

  /** Tokens after the third do not change what a line reads as. */
  lemma ReadRowIgnoresExtra(line: string, extra: string, n: nat, parse: Parser)
    requires |Split(line)| >= 3
    ensures ReadRow(line + " " + extra, n, parse) == ReadRow(line, n, parse)
  {
    SplitAtSpace(line, ' ', extra);
    assert line + " " + extra == line + [' '] + extra;
    var ts := Split(line);
    var us := Split(line + " " + extra);
    assert us[0] == ts[0] && us[1] == ts[1] && us[2] == ts[2];
  }

  /** The loop of `get_table_values`: lines are read in order, each appending
      one entry to every column; the first bad line ends the read. */
  function ReadLines(lines: seq<string>, parse: Parser): (r: Result<Table, LineError>)
    ensures r.Ok? <==> AllRowsOk(lines, parse)
    ensures r.Ok? ==>
      && Parallel(r.value) && |r.value.m| == |lines|
      && forall i | 0 <= i < |lines| :: Row(r.value.m[i], r.value.xs[i], r.value.unc[i]) == RowOf(lines[i], parse)
    ensures r.Err? ==>
      && r.error.line < |lines|
      && (forall i | 0 <= i < r.error.line :: RowOk(lines[i], parse))
      && ReadRow(lines[r.error.line], r.error.line, parse) == Err(r.error)
    decreases |lines|
  {
    if lines == [] then Ok(Table([], [], []))
    else
      var n := |lines| - 1;
      var t :- ReadLines(lines[..n], parse);
      var row :- ReadRow(lines[n], n, parse);
      Ok(Table(t.m + [row.m], t.xs + [row.xs], t.unc + [row.unc]))
  }

  /** Length of the first line of `c`: up to and including its first newline,
      or all of `c` when there is none. */
  function LineLength(c: string): (n: nat)
    ensures c != [] ==> 0 < n <= |c|
    ensures c == [] ==> n == 0
    ensures forall i | 0 <= i < n - 1 :: c[i] != '\n'
    ensures 0 < n < |c| ==> c[n - 1] == '\n'
  {
    if c == [] then 0
    else if c[0] == '\n' then 1
    else 1 + LineLength(c[1..])
  }

  /** `for line in f`: the file's lines, each keeping its newline. */
  function FileLines(c: string): (ls: seq<string>)
    ensures Concat(ls) == c
    ensures forall k | 0 <= k < |ls| :: |ls[k]| > 0 && '\n' !in ls[k][..|ls[k]| - 1]
    ensures forall k | 0 <= k < |ls| - 1 :: ls[k][|ls[k]| - 1] == '\n'
    decreases |c|
  {
    if c == [] then []
    else
      var n := LineLength(c);
      assert c == c[..n] + c[n..];
      [c[..n]] + FileLines(c[n..])
  }

  /** `get_table_values(table)` on the file's content. */
  function ReadTable(content: string, parse: Parser): (r: Result<Table, LineError>)
    ensures r.Ok? <==> AllRowsOk(FileLines(content), parse)
    ensures r.Ok? ==> Parallel(r.value) && |r.value.m| == |FileLines(content)|
    ensures r.Err? ==> r.error.line < |FileLines(content)|
  {
    ReadLines(FileLines(content), parse)
  }
}
