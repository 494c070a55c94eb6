# SQL guard and result formatters of the business-intelligence assistant

This project models two parts of a chat assistant that answers business
questions by writing SQL against a small sales database.

- **`validate_sql_query`** (module `SchemaValidator`, `schema_validator.dfy`) is a lexical
  guard. It works in four steps:
  1. It lower-cases the query.
  2. It collects every word that follows `from` or `join` (some joins with a qualifier) and
     whitespace.
  3. It rejects the query if a collected name is not one of the eight tables.
  4. It also rejects the query if it contains one of ten column-name fragments.

  Its deny-list of invented table names is checked in between, but that check can never fire.
  The regular expressions are modelled by a small scanner with the semantics of `re.findall`:
  leftmost matches, no overlap, and greedy runs. `\s` is the whitespace set of Python's
  `str.isspace`; `\w` and lower-casing are ASCII.
- **`sql_engine` and `sql_to_dataframe`** (module `Tools`, `tools.dfy`) turn the outcome of a
  query into output.
  - `sql_engine` builds a pipe-delimited text table, the fixed no-results text, or the error
    text, which carries the failure's message. It is a method that accumulates the text line by line.
  - `sql_to_dataframe` builds a payload whose status is `empty`, `success` or `error`. Its sample
    holds at most ten rows.

  The database round-trip itself is an input, with every value already in its `str()` form.

The two tools never call the guard, and the model does not compose them.

The deny-list check of the guard (`src/database/schema_validator.py:55-62`) is dead code. No
deny-listed name is a valid table, so a query on `payments` is always reported as an invalid
table first; see `PaymentsRejectedAsInvalid`.

## Model

| member | source | states |
|---|---|---|
| SchemaValidator.Validate | src/database/schema_validator.py:28-75 | The query is accepted exactly when every captured table name is one of the eight valid tables and the lower-cased query contains no column fragment. It is rejected as invalid exactly when some captured name is not valid, and then the reported set is exactly the captured names outside the valid set. The hallucinated-table verdict is never produced. Any captured deny-listed name leads to the invalid-table verdict and is among the reported names. The column verdict arises only when both table checks pass. The per-table column map is not an input. |
| SchemaValidator.ValidateSqlQuery | src/database/schema_validator.py:44-75 | The loop that accumulates referenced tables pattern by pattern, the two table checks, and the column loop with its early return together compute the verdict `Validate` specifies. |
| SchemaValidator.Lower | src/database/schema_validator.py:28 | Lower-casing keeps the length, keeps every character that is not a capital, and turns each capital A-Z into its small letter (code point plus 32). |
| SchemaValidator.CaseInsensitive | src/database/schema_validator.py:28 | The verdict for a query equals the verdict for its lower-cased form. |
| SchemaValidator.IsSpace | src/database/schema_validator.py:35-40 | `\s`: the whitespace characters of Python's `str.isspace`; no whitespace character is a word character, which is why each greedy run is the only one that can succeed. |
| SchemaValidator.IsWord | src/database/schema_validator.py:35-40 | `\w`, restricted to ASCII: every word character is an ASCII character. |
| SchemaValidator.LowerChar | src/database/schema_validator.py:28 | A character that is not a capital comes back unchanged; a capital becomes its small letter, 32 code points on. So word characters and whitespace stay what they are. |
| SchemaValidator.SpaceEnd | src/database/schema_validator.py:35-40 | The greedy `\s` run from `i`: every character before the end is whitespace and the character at the end is not. |
| SchemaValidator.WordEnd | src/database/schema_validator.py:35-40 | The greedy `\w` run from `i`: every character before the end is a word character and the character at the end is not. |
| SchemaValidator.CaptureIsName | src/database/schema_validator.py:35-40 | The group `(\w+)` captures a non-empty run of word characters. |
| SchemaValidator.ScanCapturesNames | src/database/schema_validator.py:46 | About `Scan`, the left-to-right search behind `re.findall`: every capture it returns is a non-empty run of word characters. |
| SchemaValidator.FindAllNames | src/database/schema_validator.py:46 | About `FindAll`, which is `re.findall(pattern, query_lower)`: it returns only non-empty runs of word characters. |
| SchemaValidator.ReferencedIsUnion | src/database/schema_validator.py:44-47 | About `Referenced`, the set accumulated by the pattern loop: each pattern's captures are in it, and each of its names is captured by some pattern. |
| SchemaValidator.ReferencedAreNames | src/database/schema_validator.py:44-47 | About `ReferencedTables`, the final `referenced_tables`: every referenced name is a non-empty run of word characters. |
| SchemaValidator.ContainsIsSubstring | src/database/schema_validator.py:72 | About `Contains`, which is `re.search` for a letter-only pattern: it holds exactly when the pattern occurs somewhere as a substring. |
| SchemaValidator.ColumnCheckNeedsLength | src/database/schema_validator.py:65-73 | About `HasColumnPattern`, the column loop's condition: the shortest fragment has seven letters, so a query shorter than that passes the column check. |
| SchemaValidator.FragmentAt | src/database/schema_validator.py:71-73 | A text with a column fragment at some position fails the column check. |
| SchemaValidator.MatchAt | src/database/schema_validator.py:35-40 | A match at `i` has the pattern's first keyword at `i`, at least one whitespace character after it, and a capture that starts at a word character inside the text. |
| SchemaValidator.LowerOfLower | src/database/schema_validator.py:28 | A text without capitals is its own lower-cased form. |
| SchemaValidator.ScanSound | src/database/schema_validator.py:46 | Every capture a scan from `i` returns is the capture of a real match of the pattern at some position `q >= i`. |
| SchemaValidator.KeywordMatch | src/database/schema_validator.py:35-36 | A one-keyword pattern matches at `i` exactly when the keyword is at `i`, at least one whitespace character follows, and a word character follows that run; the capture starts at that word character. |
| SchemaValidator.ScanFinds | src/database/schema_validator.py:46 | A scan from `i` finds the capture of a match at `q` provided that no match starting in `[i, q)`, whether or not the scan reaches it, has a capture that extends past `q`. |
| SchemaValidator.ScanWithoutMatch | src/database/schema_validator.py:46 | A scan over a stretch where the pattern never matches captures nothing. |
| SchemaValidator.JoinMatchShape | src/database/schema_validator.py:36 | A `join\s+(\w+)` match is the four letters of `join`, at least one whitespace character, then the captured word. |
| SchemaValidator.QualifiedMatchShape | src/database/schema_validator.py:37-40 | A qualified-join match is its qualifier, whitespace, and a plain `join` match with the same capture. |
| SchemaValidator.NoCoverByPositions | src/database/schema_validator.py:36-40 | A plain `join` match cannot extend past a `join` that follows whitespace after a character other than whitespace or `n`. |
| SchemaValidator.JoinDoesNotCover | src/database/schema_validator.py:36-40 | No plain `join` match that starts before the `join` of a qualified match reaches past it. |
| SchemaValidator.QualifiedInJoin | src/database/schema_validator.py:36-40 | Every name a qualified-join pattern captures is also captured by `join\s+(\w+)`. |
| SchemaValidator.QualifiedSubset | src/database/schema_validator.py:36-40 | The names of a qualified-join pattern form a subset of the plain join names. |
| SchemaValidator.TablesFromFromAndJoin | src/database/schema_validator.py:34-47 | The referenced tables are exactly the captures of `from\s+(\w+)` and `join\s+(\w+)`; the four qualified-join patterns add no names. |
| SchemaValidator.NothingCaptured | src/database/schema_validator.py:44-52 | When `from` and `join` are never followed by whitespace and a word character, no table is referenced: only the column check can reject. |
| SchemaValidator.ReferencesOnlyFromAndJoin | src/database/schema_validator.py:34-47 | Empty `from` and `join` captures mean no referenced table. |
| SchemaValidator.NoTableVerdict | src/database/schema_validator.py:50-75 | With no referenced table the verdict is the column verdict or acceptance, as the column check decides. |
| SchemaValidator.SingleTableVerdict | src/database/schema_validator.py:50-75 | With exactly one referenced table, an unknown table gives the invalid-table verdict for it alone, and a valid one gives the column verdict or acceptance. |
| SchemaValidator.SkipWithoutFirstChar | src/database/schema_validator.py:46 | A stretch without the first letter of the keyword contributes no capture. |
| SchemaValidator.ScanStep | src/database/schema_validator.py:46 | After a match the scan resumes at the end of the captured word. |
| SchemaValidator.FromOnce | src/database/schema_validator.py:35 | For a text that is a prefix without `f`, then `from`, one space, and a word that ends the text, the `from` pattern captures exactly that word. |
| SchemaValidator.FromKeywordAt | src/database/schema_validator.py:35 | `from`, one space and a word character give a match whose capture starts after the space. |
| SchemaValidator.WholeWord | src/database/schema_validator.py:35-40 | A suffix of word characters is captured whole. |
| SchemaValidator.FromWithoutName | src/database/schema_validator.py:35 | For a text that is a prefix without `f`, then `from`, one space, and a rest without `f` that starts with a character that is neither a word character nor whitespace (a quote, a parenthesis), the `from` pattern captures nothing. |
| SchemaValidator.FromWithoutNameAt | src/database/schema_validator.py:35 | The same fact stated on positions. |
| SchemaValidator.NoJoin | src/database/schema_validator.py:36 | A text without `j` has no join capture. |
| SchemaValidator.SingleFrom | src/database/schema_validator.py:34-47 | For a prefix without `f` or `j`, then `from`, one space, and a word without `j` that ends the text, the referenced tables are exactly that word. |
| SchemaValidator.MissingChar | src/database/schema_validator.py:72 | A text lacking a letter of a fragment does not contain that fragment. |
| SchemaValidator.NoColumnPatternWithout | src/database/schema_validator.py:65-73 | Every column fragment has an `a` or a `d`, so a text with neither passes the column check. |
| SchemaValidator.PaymentsRejectedAsInvalid | src/database/schema_validator.py:50-62 | `SELECT * FROM payments` is rejected with the invalid-table verdict for `{payments}`, not the hallucinated-table one. |
| SchemaValidator.CustomerIdRejected | src/database/schema_validator.py:28-73 | `SELECT CustomerId FROM customers` is rejected with the column verdict. |
| SchemaValidator.CustomersAccepted | src/database/schema_validator.py:28-75 | `SELECT * FROM customers` is accepted. |
| SchemaValidator.QuotedNameNotChecked | src/database/schema_validator.py:35-52 | `SELECT * FROM "customers"` captures no name and is accepted. |
| Tools.SqlEngine | src/tools/tools.py:80-99 | A failure gives the error prefix, the message and the advice. Zero rows give exactly the no-results text. Otherwise the output is the success preamble followed by the header, the dash line and one line per row, each ending in a newline. Only a failure produces text starting with the error prefix. |
| Tools.TableStart | src/tools/tools.py:90-91 | Before any row the table text is the header line and the dash line. |
| Tools.TableStep | src/tools/tools.py:93-94 | Each row appends its own line to the table text. |
| Tools.SuccessNotMarked | src/tools/tools.py:86-89 | A text starting with the success mark never starts with the error prefix. |
| Tools.Join | src/tools/tools.py:90-94 | The separator join: no strings give the empty text; otherwise the text starts with the first string, and its length is the strings' total length plus one separator between each two. |
| Tools.FieldLine | src/tools/tools.py:90-94 | The header line and each row line: a line starts with its first field, and its length is the fields plus a three-character separator between each two. |
| Tools.JoinSnoc | src/tools/tools.py:90-94 | Joining one more string appends one separator and that string, so the fields of a line appear in order, each after a separator. |
| Tools.ErrorText | src/tools/tools.py:98-99 | The error text is the error prefix, then the message exactly, then the fixed advice. |
| Tools.Separator | src/tools/tools.py:91 | The dash line is made only of `-` and is exactly as long as the header line. |
| Tools.Repeat | src/tools/tools.py:91 | String repetition gives `n` copies of the character. |
| Tools.RowLines | src/tools/tools.py:93-94 | There is one line per row, in row order, each the row's values joined by the pipe separator. |
| Tools.TableLines | src/tools/tools.py:88-96 | When no column name or value contains a newline, the text after the preamble for N rows is exactly N + 2 newline-terminated lines: the header, the dash line of the header's length, then each row in order. |
| Tools.LinesAppend | src/tools/tools.py:93-94 | Appending a line adds that line and a newline at the end of the text. |
| Tools.SplitLinesOfLines | src/tools/tools.py:90-94 | When no line contains a newline, cutting the table text at its newlines gives back exactly its lines. |
| Tools.FirstLine | src/tools/tools.py:90-94 | The first cut is at the newline ending the first line. |
| Tools.IndexOf | src/tools/tools.py:90-94 | The position found is the first newline, or the end when there is none. |
| Tools.JoinWithout | src/tools/tools.py:90-94 | Joining fields that lack a character, with a separator that lacks it, gives a line without it. |
| Tools.FieldCount | src/tools/tools.py:90-94 | A line of k fields without pipes contains exactly k - 1 pipes. |
| Tools.CountAppend | src/tools/tools.py:90-94 | Occurrence counts add over concatenation. |
| Tools.CountWithout | src/tools/tools.py:90-94 | A text without a character has zero occurrences of it. |
| Tools.SqlToDataFrame | src/tools/tools.py:114-145 | The status is `error` exactly on a failure, and then the payload carries the message. The status is `empty` exactly when the frame is empty, and then the message is fixed and the columns and sample are empty. Otherwise the status is `success` with the frame's shape, its column names, its dtype labels by column, at most the first ten rows as records in order, and summary statistics over exactly the numeric columns, empty exactly when no column is numeric. |
| Tools.IsEmpty | src/tools/tools.py:121 | `df.empty`: the frame is empty exactly when its number of cells (rows times columns) is zero. |
| Tools.ToRecord | src/tools/tools.py:135 | One record of `to_dict('records')`: as many pairs as both the columns and the row have, the i-th pairing the i-th column name with the i-th value. |
| Tools.Names | src/tools/tools.py:133 | The column names, in the frame's order. |
| Tools.DTypes | src/tools/tools.py:134 | Each column name paired with its dtype label. |
| Tools.NumericNames | src/tools/tools.py:136 | The columns `describe()` summarises: a name is in the list exactly when some numeric column has it, so the list is empty exactly when no column is numeric. |
| Tools.Records | src/tools/tools.py:135 | The first n rows, in order, each as a record. |
| Tools.RecordRoundTrip | src/tools/tools.py:135 | A record of a full row has the column names as keys and the row's values as values, in order. |
| Tools.SampleIsPrefix | src/tools/tools.py:130-137 | For a non-empty frame of full rows, the sample has at most ten records and every row when there are at most ten. Each record gives back its row's values under the frame's column names. |

## Left out

- Python's full Unicode `str.lower()` and Unicode `\w` are not modelled. Lower-casing and word
  characters are ASCII only, so a non-ASCII letter ends a captured name here.
- The reason texts are not modelled. The model returns a tagged verdict with the offending set,
  not the message with Python's `set` repr.
- The database round-trip is an input: `engine.connect`, `execute`, `fetchall`, `keys`,
  `read_sql_query`. The model does not distinguish the kind of exception; it receives only the
  message, as `str(e)`.
- The `str()` rendering of database values and column names is an input.
- `Tools.SqlToDataFrame` takes the dtype labels and numeric columns as inputs, because pandas
  infers them.
- `Tools.SqlToDataFrame` does not model the `describe()` statistics (floating-point mean,
  standard deviation, quartiles). `summaryStats` is the list of numeric column names
  `describe()` would summarise. Which columns count as numeric is an input. pandas 2
  `describe()` also summarises datetime columns. Under the SQLite engine these arrive as
  text, but another engine could deliver them typed.
- `json.dumps` serialisation of the payload is left out; the payload is modelled before
  serialisation.
- `Tools.ToRecord` keeps duplicate column names as separate pairs. Python's dict would keep only
  the last one.
- `Tools.DTypes` keeps duplicate column names as separate pairs, as `ToRecord` does. The dict
  from `df.dtypes.astype(str).to_dict()` keeps only one entry per name, which matters for a
  `SELECT *` over a join.
- `df.empty` is modelled as pandas defines it: no rows or no columns. So a frame with rows but no
  columns also gives the `empty` status.
- The `@tool` decorators and the factory functions that wrap the tools are not modelled. The
  docstring of `sql_engine` promises a validation step, but neither tool calls the guard, so the
  model does not compose them.
- `src/database/manager.py` and `src/database/connect.py` are left out: table definitions,
  seeding, connection strings and schema introspection are database I/O.
- The agents, the settings and the entry point are left out: agent construction and prompts
  belong to an external framework, and the entry point is console I/O.
- Concurrency and connection scope are left out; nothing in the code goes beyond
  `with engine.connect()`.
