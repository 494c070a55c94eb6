/**
 * The two database tools: `sql_engine`, which turns a query outcome into a
 * pipe-delimited text table or an error text, and `sql_to_dataframe`, which
 * turns it into a structured payload with an `empty`, `success` or `error`
 * status. The database round-trip itself is an input: every value and column
 * name arrives already in its `str()` form.
 */
module Tools {

  /** What executing a query and fetching its rows gives `sql_engine`. */
  datatype Outcome =
    | Rows(columns: seq<string>, rows: seq<seq<string>>)
    | Failed(msg: string)

  const Check: char := '\U{2705}'
  const Cross: char := '\U{274C}'
  const NoResultsText: string := [Check] + " Query executed successfully but returned no results."
  const SuccessPrefix: string := [Check] + " Query executed successfully!\n\nResults:\n"
  const ErrorPrefix: string := [Cross] + " SQL EXECUTION ERROR: "
  const ErrorAdvice: string :=
    "\n\nCheck your SQL syntax and ensure you're using the correct table/column names from the schema."
  const FieldSeparator: string := " | "

  // ---------------------------------------------------------------------------
  // Text helpers
  // ---------------------------------------------------------------------------

  /** The total number of characters of the strings in `xs`. */
  function TotalLength(xs: seq<string>): nat
  {
    if xs == [] then 0 else |xs[0]| + TotalLength(xs[1..])
  }

  /**
   * Python's `sep.join(xs)`: the strings in order, with one separator between
   * each two of them and none around them.
   */
  function Join(xs: seq<string>, sep: string): (r: string)
    ensures xs == [] ==> r == ""
    ensures xs != [] ==> |r| == TotalLength(xs) + (|xs| - 1) * |sep|
    ensures xs != [] ==> StartsWith(r, xs[0])
    decreases |xs|
  {
    if xs == [] then ""
    else if |xs| == 1 then xs[0]
    else xs[0] + sep + Join(xs[1..], sep)
  }

  /** Python's `c * n` for a one-character string. */
  function Repeat(c: char, n: nat): (r: string)
    ensures |r| == n
    ensures forall i :: 0 <= i < n ==> r[i] == c
  {
    if n == 0 then "" else [c] + Repeat(c, n - 1)
  }

  /** Each line followed by a newline, concatenated. */
  function Lines(ls: seq<string>): string
  {
    if ls == [] then "" else ls[0] + "\n" + Lines(ls[1..])
  }

  /** The position of the first `c` in `s`, or `|s|` when there is none. */
  function IndexOf(s: string, c: char): (k: nat)
    ensures k <= |s|
    ensures forall j :: 0 <= j < k ==> s[j] != c
    ensures k < |s| ==> s[k] == c
  {
    if s == [] then 0 else if s[0] == c then 0 else 1 + IndexOf(s[1..], c)
  }

  /** Cuts a text at its newlines; an unterminated tail is a last line of its own. */
  function SplitLines(s: string): seq<string>
    decreases |s|
  {
    if s == [] then []
    else
      var k := IndexOf(s, '\n');
      if k == |s| then [s] else [s[..k]] + SplitLines(s[k + 1..])
  }

  /** The number of occurrences of `c` in `s`. */
  function Count(s: string, c: char): nat
  {
    if s == [] then 0 else (if s[0] == c then 1 else 0) + Count(s[1..], c)
  }

  function StartsWith(s: string, prefix: string): bool
  {
    |prefix| <= |s| && s[..|prefix|] == prefix
  }

  // ---------------------------------------------------------------------------
  // sql_engine
  // ---------------------------------------------------------------------------

  /**
   * A line of fields joined by " | ": the header (the column names in the
   * engine's order) and each row (its values in column order).
   */
  function FieldLine(fields: seq<string>): (r: string)
    ensures fields != [] ==> StartsWith(r, fields[0])
    ensures fields != [] ==> |r| == TotalLength(fields) + (|fields| - 1) * 3
  {
    Join(fields, FieldSeparator)
  }

  /** The separator line: dashes, as many as the header has characters. */
  function Separator(columns: seq<string>): (r: string)
    ensures |r| == |FieldLine(columns)|
    ensures forall i :: 0 <= i < |r| ==> r[i] == '-'
  {
    Repeat('-', |FieldLine(columns)|)
  }

  function RowLines(rows: seq<seq<string>>): (r: seq<string>)
    ensures |r| == |rows|
    ensures forall i :: 0 <= i < |rows| ==> r[i] == FieldLine(rows[i])
  {
    if rows == [] then [] else [FieldLine(rows[0])] + RowLines(rows[1..])
  }

  /** The lines of the text table after the fixed preamble. */
  function Table(columns: seq<string>, rows: seq<seq<string>>): seq<string>
  {
    [FieldLine(columns), Separator(columns)] + RowLines(rows)
  }

  /** The error prefix, then the message, then the fixed advice. */
  function ErrorText(msg: string): (r: string)
    ensures |r| == |ErrorPrefix| + |msg| + |ErrorAdvice|
    ensures StartsWith(r, ErrorPrefix)
    ensures r[|ErrorPrefix|..|ErrorPrefix| + |msg|] == msg
    ensures r[|r| - |ErrorAdvice|..] == ErrorAdvice
  {
    ErrorPrefix + msg + ErrorAdvice
  }

  /**
   * `sql_engine` after the round-trip: no rows give the fixed no-results
   * text, rows give the preamble and the table built line by line, and a
   * failure gives the error text. Only a failure yields a text that starts
   * with the error prefix.
   */
  method SqlEngine(outcome: Outcome) returns (output: string)
    ensures outcome.Failed? ==> output == ErrorText(outcome.msg)
    ensures outcome.Rows? && outcome.rows == [] ==> output == NoResultsText
    ensures outcome.Rows? && outcome.rows != [] ==>
      output == SuccessPrefix + Lines(Table(outcome.columns, outcome.rows))
    ensures StartsWith(output, ErrorPrefix) <==> outcome.Failed?
  {
    match outcome
    case Failed(msg) =>
      output := ErrorPrefix + msg + ErrorAdvice;
    case Rows(columns, rows) =>
      if rows == [] {
        output := NoResultsText;
        assert NoResultsText == [Check] + NoResultsText[1..];
        SuccessNotMarked(NoResultsText[1..]);
        return;
      }
      var header := Join(columns, FieldSeparator);
      output := SuccessPrefix;
      output := output + header + "\n";
      output := output + Repeat('-', |header|) + "\n";
      TableStart(columns, rows);
      for i := 0 to |rows|
        invariant output == SuccessPrefix + Lines(Table(columns, rows[..i]))
      {
        TableStep(columns, rows, i);
        output := output + Join(rows[i], FieldSeparator) + "\n";
      }
      assert rows[..|rows|] == rows;
      assert output == [Check] + (SuccessPrefix[1..] + Lines(Table(columns, rows)));
      SuccessNotMarked(SuccessPrefix[1..] + Lines(Table(columns, rows)));
  }

  /** Before any row, the table text is the header line and the dash line. */
  lemma TableStart(columns: seq<string>, rows: seq<seq<string>>)
    ensures Lines(Table(columns, rows[..0])) ==
      FieldLine(columns) + "\n" + Repeat('-', |FieldLine(columns)|) + "\n"
  {
    var header := FieldLine(columns);
    var dashes := Repeat('-', |header|);
    assert Table(columns, rows[..0]) == [header] + [dashes];
    LinesAppend([], header);
    LinesAppend([header], dashes);
  }

  /** Each row adds its line to the table text. */
  lemma TableStep(columns: seq<string>, rows: seq<seq<string>>, i: nat)
    requires i < |rows|
    ensures Lines(Table(columns, rows[..i + 1])) ==
      Lines(Table(columns, rows[..i])) + FieldLine(rows[i]) + "\n"
  {
    LinesAppend(Table(columns, rows[..i]), FieldLine(rows[i]));
    assert Table(columns, rows[..i + 1]) == Table(columns, rows[..i]) + [FieldLine(rows[i])];
  }

  // ---------------------------------------------------------------------------
  // Properties of the text table
  // ---------------------------------------------------------------------------

  /** A text that starts with the success mark never starts with the error prefix. */
  lemma SuccessNotMarked(rest: string)
    ensures !StartsWith([Check] + rest, ErrorPrefix)
  {
    assert ErrorPrefix[0] == Cross;
  }

  lemma {:induction false} LinesAppend(ls: seq<string>, x: string)
    ensures Lines(ls + [x]) == Lines(ls) + x + "\n"
  {
    if ls != [] {
      assert (ls + [x])[1..] == ls[1..] + [x];
      LinesAppend(ls[1..], x);
    }
  }

  /** Cutting newline-terminated lines at their newlines gives the lines back. */
  lemma {:induction false} SplitLinesOfLines(ls: seq<string>)
    requires forall k :: 0 <= k < |ls| ==> '\n' !in ls[k]
    ensures SplitLines(Lines(ls)) == ls
  {
    if ls != [] {
      FirstLine(ls[0], Lines(ls[1..]));
      SplitLinesOfLines(ls[1..]);
    }
  }

  /** The first cut of a text is at the newline that ends its first line. */
  lemma FirstLine(l: string, rest: string)
    requires '\n' !in l
    ensures SplitLines(l + "\n" + rest) == [l] + SplitLines(rest)
  {
    var s := l + "\n" + rest;
    assert s[|l|] == '\n';
    assert forall j :: 0 <= j < |l| ==> s[j] == l[j];
    assert IndexOf(s, '\n') == |l|;
    assert s[..|l|] == l;
    assert s[|l| + 1..] == rest;
  }

  /**
   * Joining one more string appends a separator and that string: the strings
   * appear in order, each after the separator that follows its predecessor.
   */
  lemma {:induction false} JoinSnoc(xs: seq<string>, x: string, sep: string)
    requires xs != []
    ensures Join(xs + [x], sep) == Join(xs, sep) + sep + x
    decreases |xs|
  {
    if |xs| == 1 {
      assert xs + [x] == [xs[0], x];
      assert [xs[0], x][1..] == [x];
    } else {
      assert (xs + [x])[1..] == xs[1..] + [x];
      JoinSnoc(xs[1..], x, sep);
    }
  }

  lemma {:induction false} JoinWithout(xs: seq<string>, sep: string, c: char)
    requires c !in sep
    requires forall k :: 0 <= k < |xs| ==> c !in xs[k]
    ensures c !in Join(xs, sep)
    decreases |xs|
  {
    if |xs| > 1 {
      JoinWithout(xs[1..], sep, c);
    }
  }

  lemma {:induction false} CountAppend(a: string, b: string, c: char)
    ensures Count(a + b, c) == Count(a, c) + Count(b, c)
  {
    if a == [] {
      assert a + b == b;
    } else {
      assert (a + b)[1..] == a[1..] + b;
      CountAppend(a[1..], b, c);
    }
  }

  lemma {:induction false} CountWithout(s: string, c: char)
    requires c !in s
    ensures Count(s, c) == 0
  {
    if s != [] {
      CountWithout(s[1..], c);
    }
  }

  /** A line of `k` fields holds exactly `k - 1` pipes when no field contains one. */
  lemma {:induction false} FieldCount(xs: seq<string>)
    requires xs != []
    requires forall k :: 0 <= k < |xs| ==> '|' !in xs[k]
    ensures Count(Join(xs, FieldSeparator), '|') == |xs| - 1
    decreases |xs|
  {
    if |xs| == 1 {
      CountWithout(xs[0], '|');
    } else {
      FieldCount(xs[1..]);
      CountWithout(xs[0], '|');
      CountAppend(xs[0], FieldSeparator, '|');
      CountAppend(xs[0] + FieldSeparator, Join(xs[1..], FieldSeparator), '|');
    }
  }

  /**
   * For N rows, the text after the preamble consists of exactly N + 2
   * newline-terminated lines: the header, the separator, then each row in
   * order; provided no name or value contains a newline itself.
   */
  lemma TableLines(columns: seq<string>, rows: seq<seq<string>>)
    requires forall k :: 0 <= k < |columns| ==> '\n' !in columns[k]
    requires forall r, k :: 0 <= r < |rows| && 0 <= k < |rows[r]| ==> '\n' !in rows[r][k]
    ensures var ls := SplitLines(Lines(Table(columns, rows)));
      && |ls| == |rows| + 2
      && ls[0] == Join(columns, FieldSeparator)
      && ls[1] == Repeat('-', |ls[0]|)
      && forall r :: 0 <= r < |rows| ==> ls[r + 2] == Join(rows[r], FieldSeparator)
  {
    var t := Table(columns, rows);
    JoinWithout(columns, FieldSeparator, '\n');
    forall r | 0 <= r < |rows|
      ensures '\n' !in FieldLine(rows[r])
    {
      JoinWithout(rows[r], FieldSeparator, '\n');
    }
    assert '\n' !in Separator(columns);
    SplitLinesOfLines(t);
  }

  // ---------------------------------------------------------------------------
  // sql_to_dataframe
  // ---------------------------------------------------------------------------

  /** A result column as pandas sees it: its name, its dtype label, whether it is numeric. */
  datatype Column = Column(name: string, dtype: string, numeric: bool)

  datatype Frame = Frame(columns: seq<Column>, rows: seq<seq<string>>)

  /** What `read_sql_query` gives `sql_to_dataframe`. */
  datatype FrameOutcome = Loaded(frame: Frame) | LoadFailed(msg: string)

  /** One row as a record: (column name, value) pairs in column order. */
  type Record = seq<(string, string)>

  /** The JSON document `sql_to_dataframe` returns, before serialisation. */
  datatype Payload =
    | EmptyPayload(message: string, columnNames: seq<string>, sampleData: seq<Record>)
    | SuccessPayload(shape: (nat, nat), columnNames: seq<string>, dtypes: seq<(string, string)>,
                     sampleData: seq<Record>, summaryStats: seq<string>)
    | ErrorPayload(error: string)
  {
    /** The document's "status" field. */
    function Status(): string
    {
      match this
      case EmptyPayload(_, _, _) => "empty"
      case SuccessPayload(_, _, _, _, _) => "success"
      case ErrorPayload(_) => "error"
    }
  }

  const SampleSize: nat := 10
  const EmptyMessage: string := "Query returned no results"

  /** `df.empty`: no rows or no columns. */
  predicate IsEmpty(f: Frame)
    ensures IsEmpty(f) <==> |f.rows| * |f.columns| == 0
  {
    |f.rows| == 0 || |f.columns| == 0
  }

  function Names(cols: seq<Column>): (r: seq<string>)
    ensures |r| == |cols|
    ensures forall k :: 0 <= k < |cols| ==> r[k] == cols[k].name
  {
    if cols == [] then [] else [cols[0].name] + Names(cols[1..])
  }

  function DTypes(cols: seq<Column>): (r: seq<(string, string)>)
    ensures |r| == |cols|
    ensures forall k :: 0 <= k < |cols| ==> r[k] == (cols[k].name, cols[k].dtype)
  {
    if cols == [] then [] else [(cols[0].name, cols[0].dtype)] + DTypes(cols[1..])
  }

  /**
   * The columns `describe()` summarises: the numeric ones, in order. The
   * statistics themselves are not modelled.
   */
  function NumericNames(cols: seq<Column>): (r: seq<string>)
    ensures |r| <= |cols|
    ensures r == [] <==> forall k :: 0 <= k < |cols| ==> !cols[k].numeric
    ensures forall n :: n in r <==> exists k :: 0 <= k < |cols| && cols[k].numeric && cols[k].name == n
  {
    if cols == [] then []
    else (if cols[0].numeric then [cols[0].name] else []) + NumericNames(cols[1..])
  }

  /** One row of `to_dict('records')`: names paired with values, as far as both go. */
  function ToRecord(cols: seq<Column>, row: seq<string>): (r: Record)
    ensures |r| == Min(|cols|, |row|)
    ensures forall i :: 0 <= i < |r| ==> r[i] == (cols[i].name, row[i])
  {
    if cols == [] || row == [] then []
    else [(cols[0].name, row[0])] + ToRecord(cols[1..], row[1..])
  }

  function Min(a: nat, b: nat): nat
  {
    if a <= b then a else b
  }

  /** The records of the first `n` rows. */
  function Records(cols: seq<Column>, rows: seq<seq<string>>, n: nat): (r: seq<Record>)
    requires n <= |rows|
    ensures |r| == n
    ensures forall i :: 0 <= i < n ==> r[i] == ToRecord(cols, rows[i])
  {
    if n == 0 then [] else Records(cols, rows, n - 1) + [ToRecord(cols, rows[n - 1])]
  }

  /**
   * `sql_to_dataframe` after `read_sql_query`: an empty frame gives the empty
   * status with no columns and no sample, a frame gives the success status
   * with at most the first ten rows as records, and a failure gives the error
   * status carrying the message.
   */
  function SqlToDataFrame(o: FrameOutcome): (p: Payload)
    ensures p.Status() == "error" <==> o.LoadFailed?
    ensures o.LoadFailed? ==> p == ErrorPayload(o.msg)
    ensures p.Status() == "empty" <==> o.Loaded? && IsEmpty(o.frame)
    ensures p.EmptyPayload? ==> p.message == EmptyMessage && p.columnNames == [] && p.sampleData == []
    ensures p.SuccessPayload? ==>
      && o.Loaded?
      && p.shape == (|o.frame.rows|, |o.frame.columns|)
      && p.columnNames == Names(o.frame.columns)
      && p.dtypes == DTypes(o.frame.columns)
      && |p.sampleData| == Min(SampleSize, |o.frame.rows|)
      && (forall i :: 0 <= i < |p.sampleData| ==> p.sampleData[i] == ToRecord(o.frame.columns, o.frame.rows[i]))
      && p.summaryStats == NumericNames(o.frame.columns)
      && (p.summaryStats == [] <==> forall k :: 0 <= k < |o.frame.columns| ==> !o.frame.columns[k].numeric)
  {
    match o
    case LoadFailed(msg) => ErrorPayload(msg)
    case Loaded(f) =>
      if IsEmpty(f) then EmptyPayload(EmptyMessage, [], [])
      else
        SuccessPayload((|f.rows|, |f.columns|), Names(f.columns), DTypes(f.columns),
                       Records(f.columns, f.rows, Min(SampleSize, |f.rows|)),
                       NumericNames(f.columns))
  }

  // ---------------------------------------------------------------------------
  // Properties of the payload
  // ---------------------------------------------------------------------------

  function Keys(r: Record): (ks: seq<string>)
    ensures |ks| == |r|
  {
    if r == [] then [] else [r[0].0] + Keys(r[1..])
  }

  function Values(r: Record): (vs: seq<string>)
    ensures |vs| == |r|
  {
    if r == [] then [] else [r[0].1] + Values(r[1..])
  }

  /** A record of a full row keeps every value under its column's name, in order. */
  lemma {:induction false} RecordRoundTrip(cols: seq<Column>, row: seq<string>)
    requires |row| == |cols|
    ensures Keys(ToRecord(cols, row)) == Names(cols)
    ensures Values(ToRecord(cols, row)) == row
    decreases |cols|
  {
    if cols != [] {
      RecordRoundTrip(cols[1..], row[1..]);
    }
  }

  /**
   * The sample of a successful payload is the frame's first rows, in order,
   * at most ten of them, each recoverable from its record.
   */
  lemma SampleIsPrefix(f: Frame)
    requires !IsEmpty(f)
    requires forall i :: 0 <= i < |f.rows| ==> |f.rows[i]| == |f.columns|
    ensures var p := SqlToDataFrame(Loaded(f));
      && p.SuccessPayload?
      && |p.sampleData| <= SampleSize
      && (|f.rows| <= SampleSize ==> |p.sampleData| == |f.rows|)
      && forall i :: 0 <= i < |p.sampleData| ==>
           Values(p.sampleData[i]) == f.rows[i] && Keys(p.sampleData[i]) == p.columnNames
  {
    var p := SqlToDataFrame(Loaded(f));
    forall i | 0 <= i < |p.sampleData|
      ensures Values(p.sampleData[i]) == f.rows[i] && Keys(p.sampleData[i]) == p.columnNames
    {
      RecordRoundTrip(f.columns, f.rows[i]);
    }
  }
}
