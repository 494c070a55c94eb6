/**
 * The SQL guard `validate_sql_query`: a lexical screen of a query text
 * against a fixed schema of eight tables, a deny-list of table names and a
 * deny-list of column-name fragments.
 *
 * The regular expressions of the guard are modelled by a small scanner:
 * a table pattern is a list of keywords, each followed by `\s+`, and then the
 * captured group `(\w+)`; `FindAll` is Python's `re.findall` for such a
 * pattern (leftmost, non-overlapping, greedy).
 */
module SchemaValidator {

  datatype Option<T> = None | Some(value: T)

  /** The result of the guard; `Accept` is the only verdict whose flag is true. */
  datatype Verdict =
    | Accept
    | InvalidTables(invalid: set<string>)
    | HallucinatedTables(found: set<string>)
    | HallucinatedColumn
  {
    /** The boolean half of the `(is_valid, message)` pair. */
    predicate IsValid() { Accept? }
  }

  /** The tables a query may name (exact, lower-case match). */
  const ValidTables: set<string> :=
    {"transactions", "transaction_types", "products", "customers",
     "employees", "departments", "business_category", "job_desk"}

  /**
   * The per-table column sets. The guard declares them but never reads them:
   * no member of this module refers to this constant.
   */
  const ValidColumns: map<string, set<string>> :=
    map["transactions" := {"transaction_id", "customer_id", "employee_id", "approver_id",
                           "product_id", "transaction_type_id", "total_amount",
                           "remaining_amount", "created_at", "due_at"},
        "transaction_types" := {"transaction_type_id", "transaction_type_name"},
        "products" := {"product_id", "product_name", "price", "stock"},
        "customers" := {"customer_id", "customer_name", "category_id"},
        "employees" := {"employee_id", "employee_name", "job_desk_id", "department_id"},
        "departments" := {"department_id", "department_name", "department_size"},
        "business_category" := {"category_id", "category_name"},
        "job_desk" := {"job_desk_id", "job_desk_name"}]

  /** Table names the upstream model is known to invent. */
  const HallucinatedTableNames: set<string> :=
    {"payments", "installments", "salesreps", "sales_reps", "orders",
     "invoices", "customers_payments", "payment_status"}

  /** Column-name fragments that reject a query wherever they occur. */
  const ColumnPatterns: seq<string> :=
    ["customerid", "customername", "salesrepid", "salesrepname",
     "amountowed", "paymentstatus", "duedate", "amountpaid",
     "amountdue", "installmentid"]

  /** A table pattern: keywords, each followed by `\s+`, then `(\w+)`. */
  type Pattern = seq<string>

  const Join: string := "join"

  /** `from\s+(\w+)`, `join\s+(\w+)`, `left\s+join\s+(\w+)`, ... in the source's order. */
  const TablePatterns: seq<Pattern> :=
    [["from"], [Join], ["left", Join], ["right", Join], ["inner", Join], ["outer", Join]]

  // ---------------------------------------------------------------------------
  // Characters and lower-casing
  // ---------------------------------------------------------------------------

  /** Python's `\s` on `str`: the characters for which `str.isspace()` holds. */
  predicate IsSpace(c: char)
    ensures IsSpace(c) ==> !IsWord(c)
  {
    var n := c as int;
    (9 <= n <= 13) || (28 <= n <= 32) || n == 0x85 || n == 0xA0 || n == 0x1680 ||
    (0x2000 <= n <= 0x200A) || n == 0x2028 || n == 0x2029 || n == 0x202F ||
    n == 0x205F || n == 0x3000
  }

  /** `\w`, restricted to ASCII: `[A-Za-z0-9_]`. */
  predicate IsWord(c: char)
    ensures IsWord(c) ==> c as int < 128
  {
    ('a' <= c <= 'z') || ('A' <= c <= 'Z') || ('0' <= c <= '9') || c == '_'
  }

  /** ASCII lower-casing of one character. */
  function LowerChar(c: char): (d: char)
    ensures !('A' <= c <= 'Z') ==> d == c
    ensures 'A' <= c <= 'Z' ==> d as int == c as int + 32 && 'a' <= d <= 'z'
    ensures !('A' <= d <= 'Z')
    ensures IsWord(d) <==> IsWord(c)
    ensures IsSpace(d) <==> IsSpace(c)
  {
    if 'A' <= c <= 'Z' then (c as int + 32) as char else c
  }

  /** `str.lower()`, restricted to ASCII upper-case letters. */
  function Lower(s: string): (r: string)
    ensures |r| == |s|
    ensures forall i :: 0 <= i < |r| ==> !('A' <= r[i] <= 'Z')
    ensures forall i :: 0 <= i < |s| && !('A' <= s[i] <= 'Z') ==> r[i] == s[i]
    ensures forall i :: 0 <= i < |s| && 'A' <= s[i] <= 'Z' ==> r[i] as int == s[i] as int + 32
  {
    seq(|s|, i requires 0 <= i < |s| => LowerChar(s[i]))
  }

  /** A text without capitals is its own lower-cased form. */
  lemma LowerOfLower(s: string)
    requires forall i :: 0 <= i < |s| ==> !('A' <= s[i] <= 'Z')
    ensures Lower(s) == s
  {
  }

  // ---------------------------------------------------------------------------
  // The scanner behind re.findall
  // ---------------------------------------------------------------------------

  /** End of the run of whitespace that starts at `i` (greedy `\s*`). */
  function SpaceEnd(s: string, i: nat): (k: nat)
    requires i <= |s|
    ensures i <= k <= |s|
    ensures forall m :: i <= m < k ==> IsSpace(s[m])
    ensures k < |s| ==> !IsSpace(s[k])
    decreases |s| - i
  {
    if i < |s| && IsSpace(s[i]) then SpaceEnd(s, i + 1) else i
  }

  /** End of the run of word characters that starts at `i` (greedy `\w*`). */
  function WordEnd(s: string, i: nat): (k: nat)
    requires i <= |s|
    ensures i <= k <= |s|
    ensures forall m :: i <= m < k ==> IsWord(s[m])
    ensures k < |s| ==> !IsWord(s[k])
    decreases |s| - i
  {
    if i < |s| && IsWord(s[i]) then WordEnd(s, i + 1) else i
  }

  /**
   * Whether pattern `p` matches at position `i`, and if so where its captured
   * word starts. Keywords and words never begin with whitespace, so the
   * greedy `\s+` run is the only one after which the rest can match.
   */
  function MatchAt(s: string, p: Pattern, i: nat): (r: Option<nat>)
    requires i <= |s|
    ensures r.Some? ==> i <= r.value < |s| && IsWord(s[r.value])
    ensures r.Some? && p != [] ==>
      && i + |p[0]| <= |s| && s[i..i + |p[0]|] == p[0]
      && SpaceEnd(s, i + |p[0]|) > i + |p[0]|
    decreases |p|
  {
    if p == [] then
      if i < |s| && IsWord(s[i]) then Some(i) else None
    else
      var kw := p[0];
      if i + |kw| <= |s| && s[i..i + |kw|] == kw then
        var k := SpaceEnd(s, i + |kw|);
        if k == i + |kw| then None else MatchAt(s, p[1..], k)
      else
        None
  }

  /** The word captured by a match whose group starts at `b`. */
  function Capture(s: string, b: nat): string
    requires b <= |s|
  {
    s[b..WordEnd(s, b)]
  }

  /** The captures of the matches found from position `i` on, left to right, without overlap. */
  function Scan(s: string, p: Pattern, i: nat): seq<string>
    requires i <= |s|
    decreases |s| - i
  {
    if i == |s| then []
    else
      match MatchAt(s, p, i)
      case None => Scan(s, p, i + 1)
      case Some(b) => [Capture(s, b)] + Scan(s, p, WordEnd(s, b))
  }

  /** `re.findall(p, s)` for a table pattern. */
  function FindAll(p: Pattern, s: string): seq<string>
  {
    Scan(s, p, 0)
  }

  function SetOf(xs: seq<string>): set<string>
  {
    set x | x in xs
  }

  /** The names collected by the first `|pats|` passes of the table-pattern loop. */
  function Referenced(s: string, pats: seq<Pattern>): set<string>
  {
    if pats == [] then {}
    else Referenced(s, pats[..|pats| - 1]) + SetOf(FindAll(pats[|pats| - 1], s))
  }

  /** `referenced_tables` for an already lower-cased query. */
  function ReferencedTables(s: string): set<string>
  {
    Referenced(s, TablePatterns)
  }

  /** `re.search(pat, s)` for a pattern made of letters only: a substring test. */
  predicate Contains(s: string, pat: string)
  {
    exists i | 0 <= i <= |s| - |pat| :: OccursAt(s, pat, i)
  }

  predicate OccursAt(s: string, pat: string, i: int)
  {
    0 <= i <= |s| - |pat| && s[i..i + |pat|] == pat
  }

  predicate HasColumnPattern(s: string)
  {
    exists k :: 0 <= k < |ColumnPatterns| && Contains(s, ColumnPatterns[k])
  }

  // ---------------------------------------------------------------------------
  // The guard
  // ---------------------------------------------------------------------------

  /**
   * The verdict of `validate_sql_query`, checks in the source's order. The
   * hallucinated-table verdict can never be produced: every name that reaches
   * that check is a valid table, and no valid table is on the deny-list.
   */
  function Validate(query: string): (r: Verdict)
    ensures var refs := ReferencedTables(Lower(query));
      && (r.IsValid() <==> refs <= ValidTables && !HasColumnPattern(Lower(query)))
      && (r.InvalidTables? <==> !(refs <= ValidTables))
      && (r.InvalidTables? ==> r.invalid == refs - ValidTables && r.invalid != {})
      && (r.HallucinatedColumn? <==> refs <= ValidTables && HasColumnPattern(Lower(query)))
      && !r.HallucinatedTables?
      && (refs * HallucinatedTableNames != {} ==>
            r.InvalidTables? && refs * HallucinatedTableNames <= r.invalid)
  {
    var lower := Lower(query);
    var refs := ReferencedTables(lower);
    var invalid := refs - ValidTables;
    if invalid != {} then InvalidTables(invalid)
    else
      var found := refs * HallucinatedTableNames;
      if found != {} then HallucinatedTables(found)
      else if HasColumnPattern(lower) then HallucinatedColumn
      else Accept
  }

  /** `validate_sql_query`: the table-pattern loop, the two table checks, the column-pattern loop. */
  method ValidateSqlQuery(query: string) returns (v: Verdict)
    ensures v == Validate(query)
  {
    var lower := Lower(query);
    var refs: set<string> := {};
    for k := 0 to |TablePatterns|
      invariant refs == Referenced(lower, TablePatterns[..k])
    {
      refs := refs + SetOf(FindAll(TablePatterns[k], lower));
      assert TablePatterns[..k + 1][..k] == TablePatterns[..k];
    }
    assert TablePatterns[..|TablePatterns|] == TablePatterns;

    var invalid := refs - ValidTables;
    if invalid != {} {
      return InvalidTables(invalid);
    }
    var found := refs * HallucinatedTableNames;
    if found != {} {
      return HallucinatedTables(found);
    }
    for k := 0 to |ColumnPatterns|
      invariant forall j :: 0 <= j < k ==> !Contains(lower, ColumnPatterns[j])
    {
      if Contains(lower, ColumnPatterns[k]) {
        return HallucinatedColumn;
      }
    }
    return Accept;
  }

  // ---------------------------------------------------------------------------
  // Properties of the scanner
  // ---------------------------------------------------------------------------

  /** What `(\w+)` can capture: a non-empty run of word characters. */
  predicate IsName(w: string)
  {
    w != [] && forall k :: 0 <= k < |w| ==> IsWord(w[k])
  }

  lemma CaptureIsName(s: string, b: nat)
    requires b < |s| && IsWord(s[b])
    ensures IsName(Capture(s, b))
  {
    var w := Capture(s, b);
    forall k | 0 <= k < |w| ensures IsWord(w[k]) {
      assert w[k] == s[b + k];
    }
  }

  /** Every capture of a scan is a name. */
  lemma {:induction false} ScanCapturesNames(s: string, p: Pattern, i: nat)
    requires i <= |s|
    ensures forall w :: w in Scan(s, p, i) ==> IsName(w)
    decreases |s| - i
  {
    if i < |s| {
      match MatchAt(s, p, i)
      case None =>
        ScanCapturesNames(s, p, i + 1);
      case Some(b) =>
        CaptureIsName(s, b);
        ScanCapturesNames(s, p, WordEnd(s, b));
    }
  }

  /** `re.findall` with a table pattern returns only names. */
  lemma FindAllNames(p: Pattern, s: string)
    ensures forall w :: w in FindAll(p, s) ==> IsName(w)
  {
    ScanCapturesNames(s, p, 0);
  }

  /**
   * The accumulated set is the union of the names each pattern finds: every
   * pattern's names are in it, and each of its names is found by some pattern.
   */
  lemma {:induction false} ReferencedIsUnion(s: string, pats: seq<Pattern>)
    ensures forall k :: 0 <= k < |pats| ==> SetOf(FindAll(pats[k], s)) <= Referenced(s, pats)
    ensures forall w :: w in Referenced(s, pats) ==>
      exists k :: 0 <= k < |pats| && w in FindAll(pats[k], s)
    decreases |pats|
  {
    if pats != [] {
      var init := pats[..|pats| - 1];
      ReferencedIsUnion(s, init);
      assert forall k :: 0 <= k < |init| ==> init[k] == pats[k];
    }
  }

  /** Every referenced table is a name. */
  lemma ReferencedAreNames(s: string)
    ensures forall w :: w in ReferencedTables(s) ==> IsName(w)
  {
    ReferencedIsUnion(s, TablePatterns);
    forall w | w in ReferencedTables(s) ensures IsName(w) {
      var k :| 0 <= k < |TablePatterns| && w in FindAll(TablePatterns[k], s);
      FindAllNames(TablePatterns[k], s);
    }
  }

  /** `re.search` of a letter-only pattern holds exactly when the pattern is a substring. */
  lemma ContainsIsSubstring(s: string, pat: string)
    ensures Contains(s, pat) <==> exists i, j :: 0 <= i <= j <= |s| && s[i..j] == pat
  {
    if Contains(s, pat) {
      var i :| 0 <= i <= |s| - |pat| && OccursAt(s, pat, i);
      assert s[i..i + |pat|] == pat;
    }
    if exists i, j :: 0 <= i <= j <= |s| && s[i..j] == pat {
      var i, j :| 0 <= i <= j <= |s| && s[i..j] == pat;
      assert OccursAt(s, pat, i);
    }
  }

  /** The shortest column fragment, `duedate`, has seven letters: a shorter query passes. */
  lemma ColumnCheckNeedsLength(s: string)
    ensures HasColumnPattern(s) ==> |s| >= 7
  {
    if HasColumnPattern(s) {
      var k :| 0 <= k < |ColumnPatterns| && Contains(s, ColumnPatterns[k]);
      assert forall x | x in ColumnPatterns :: |x| >= 7;
      assert ColumnPatterns[k] in ColumnPatterns;
    }
  }

  /**
   * A match at `q` is found by a scan from `i` provided that no match starting
   * in `[i, q)`, whether or not the scan reaches it, has a capture that
   * extends past `q`.
   */
  lemma {:induction false} ScanFinds(s: string, p: Pattern, i: nat, q: nat)
    requires i <= q < |s|
    requires MatchAt(s, p, q).Some?
    requires forall j :: i <= j < q && MatchAt(s, p, j).Some? ==> WordEnd(s, MatchAt(s, p, j).value) <= q
    ensures Capture(s, MatchAt(s, p, q).value) in Scan(s, p, i)
    decreases q - i
  {
    if i < q {
      match MatchAt(s, p, i)
      case None =>
        ScanFinds(s, p, i + 1, q);
      case Some(b) =>
        ScanFinds(s, p, WordEnd(s, b), q);
    }
  }

  /** A scan over a stretch where the pattern never matches captures nothing. */
  lemma {:induction false} ScanWithoutMatch(s: string, p: Pattern, i: nat)
    requires i <= |s|
    requires forall j :: i <= j < |s| ==> MatchAt(s, p, j).None?
    ensures Scan(s, p, i) == []
    decreases |s| - i
  {
    if i < |s| {
      ScanWithoutMatch(s, p, i + 1);
    }
  }

  /** `w` is the capture of a match of `p` at `q`. */
  predicate CapturedAt(s: string, p: Pattern, q: nat, w: string)
  {
    q < |s| && MatchAt(s, p, q).Some? && w == Capture(s, MatchAt(s, p, q).value)
  }

  /** Every capture a scan from `i` returns is the capture of a match at some `q >= i`. */
  lemma {:induction false} ScanSound(s: string, p: Pattern, i: nat, w: string)
    requires i <= |s| && w in Scan(s, p, i)
    ensures exists q :: i <= q && CapturedAt(s, p, q, w)
    decreases |s| - i
  {
    match MatchAt(s, p, i)
    case None =>
      ScanSound(s, p, i + 1, w);
      var q :| i + 1 <= q && CapturedAt(s, p, q, w);
    case Some(b) =>
      if w != Capture(s, b) {
        ScanSound(s, p, WordEnd(s, b), w);
        var q :| WordEnd(s, b) <= q && CapturedAt(s, p, q, w);
      } else {
        assert CapturedAt(s, p, i, w);
      }
  }

  /**
   * A one-keyword pattern matches at `i` exactly when the keyword is there,
   * at least one whitespace character follows, and then a word character;
   * the capture starts at that word character.
   */
  lemma KeywordMatch(s: string, kw: string, i: nat)
    requires i <= |s|
    ensures MatchAt(s, [kw], i).Some? <==>
      && i + |kw| <= |s| && s[i..i + |kw|] == kw
      && SpaceEnd(s, i + |kw|) > i + |kw|
      && SpaceEnd(s, i + |kw|) < |s| && IsWord(s[SpaceEnd(s, i + |kw|)])
    ensures MatchAt(s, [kw], i).Some? ==> MatchAt(s, [kw], i).value == SpaceEnd(s, i + |kw|)
  {
    assert [kw][1..] == [];
  }

  /** The shape of a `join\s+(\w+)` match at `j`, character by character. */
  lemma JoinMatchShape(s: string, j: nat)
    requires j <= |s| && MatchAt(s, [Join], j).Some?
    ensures j + 4 < |s| && s[j] == 'j' && s[j + 1] == 'o' && s[j + 2] == 'i' && s[j + 3] == 'n'
    ensures MatchAt(s, [Join], j).value == SpaceEnd(s, j + 4) > j + 4
  {
    assert [Join][1..] == [];
    assert s[j..j + 4] == Join;
    assert s[j] == s[j..j + 4][0] && s[j + 1] == s[j..j + 4][1];
    assert s[j + 2] == s[j..j + 4][2] && s[j + 3] == s[j..j + 4][3];
  }

  /** A qualified-join match at `p` is a plain join match at the position of its `join`. */
  lemma QualifiedMatchShape(s: string, x: string, p: nat)
    requires x != [] && p <= |s| && MatchAt(s, [x, Join], p).Some?
    ensures p + |x| < |s| && s[p + |x| - 1] == x[|x| - 1]
    ensures SpaceEnd(s, p + |x|) > p + |x|
    ensures MatchAt(s, [Join], SpaceEnd(s, p + |x|)) == MatchAt(s, [x, Join], p)
  {
    assert [x, Join][1..] == [Join];
    assert s[p..p + |x|] == x;
    assert s[p + |x| - 1] == s[p..p + |x|][|x| - 1];
  }

  /**
   * The character-level core of `JoinDoesNotCover`: a `join` at `j`, its
   * whitespace `[j + 4, b)` and its word `[b, e)` cannot reach past a `join`
   * at `q` that follows whitespace `(t, q)` after a character `s[t]` that is
   * neither whitespace nor `n`.
   */
  lemma NoCoverByPositions(s: string, j: nat, b: nat, e: nat, t: nat, q: nat)
    requires j < q < |s| && t + 1 < q && j + 4 < b <= e <= |s|
    requires s[j + 1] == 'o' && s[j + 2] == 'i' && s[j + 3] == 'n' && s[q] == 'j'
    requires forall m :: j + 4 <= m < b ==> IsSpace(s[m])
    requires forall m :: b <= m < e ==> IsWord(s[m])
    requires forall m :: t < m < q ==> IsSpace(s[m])
    requires !IsSpace(s[t]) && s[t] != 'n'
    ensures e <= q
  {
    assert q >= j + 4;
    assert q >= b;
    assert IsSpace(s[q - 1]);
    assert q != b;
  }

  /**
   * No plain join match that starts before the `join` of a qualified-join
   * match reaches past it, provided the qualifier ends in a character that is
   * neither whitespace nor the `n` that ends `join`.
   */
  lemma JoinDoesNotCover(s: string, x: string, p: nat, j: nat)
    requires x != [] && x[|x| - 1] != 'n' && !IsSpace(x[|x| - 1])
    requires p <= |s| && MatchAt(s, [x, Join], p).Some?
    requires p + |x| <= |s| && j < SpaceEnd(s, p + |x|)
    requires MatchAt(s, [Join], j).Some?
    ensures WordEnd(s, MatchAt(s, [Join], j).value) <= SpaceEnd(s, p + |x|)
  {
    QualifiedMatchShape(s, x, p);
    var q := SpaceEnd(s, p + |x|);
    JoinMatchShape(s, j);
    JoinMatchShape(s, q);
    var b := MatchAt(s, [Join], j).value;
    NoCoverByPositions(s, j, b, WordEnd(s, b), p + |x| - 1, q);
  }

  /** Every name a qualified-join pattern captures from `i` on is also captured by `join\s+(\w+)`. */
  lemma {:induction false} QualifiedInJoin(s: string, x: string, i: nat)
    requires x != [] && x[|x| - 1] != 'n' && !IsSpace(x[|x| - 1])
    requires i <= |s|
    ensures forall w :: w in Scan(s, [x, Join], i) ==> w in Scan(s, [Join], 0)
    decreases |s| - i
  {
    if i < |s| {
      match MatchAt(s, [x, Join], i)
      case None =>
        QualifiedInJoin(s, x, i + 1);
      case Some(b) =>
        QualifiedMatchShape(s, x, i);
        var q := SpaceEnd(s, i + |x|);
        forall j | 0 <= j < q && MatchAt(s, [Join], j).Some?
          ensures WordEnd(s, MatchAt(s, [Join], j).value) <= q
        {
          JoinDoesNotCover(s, x, i, j);
        }
        ScanFinds(s, [Join], 0, q);
        QualifiedInJoin(s, x, WordEnd(s, b));
    }
  }

  /**
   * The four qualified-join patterns add no names: the referenced tables are
   * exactly the captures of `from\s+(\w+)` and `join\s+(\w+)`.
   */
  lemma TablesFromFromAndJoin(s: string)
    ensures ReferencedTables(s) == SetOf(FindAll(["from"], s)) + SetOf(FindAll([Join], s))
  {
    var P := TablePatterns;
    var sets := seq(6, k requires 0 <= k < 6 => SetOf(FindAll(P[k], s)));
    assert P[..1][..0] == [];
    assert Referenced(s, P[..1]) == sets[0];
    assert P[..2][..1] == P[..1];
    assert Referenced(s, P[..2]) == Referenced(s, P[..1]) + sets[1];
    assert P[..3][..2] == P[..2];
    assert Referenced(s, P[..3]) == Referenced(s, P[..2]) + sets[2];
    assert P[..4][..3] == P[..3];
    assert Referenced(s, P[..4]) == Referenced(s, P[..3]) + sets[3];
    assert P[..5][..4] == P[..4];
    assert Referenced(s, P[..5]) == Referenced(s, P[..4]) + sets[4];
    assert P[..5] == P[..|P| - 1];
    assert Referenced(s, P) == Referenced(s, P[..5]) + sets[5];
    QualifiedSubset(s, "left");
    QualifiedSubset(s, "right");
    QualifiedSubset(s, "inner");
    QualifiedSubset(s, "outer");
  }

  lemma QualifiedSubset(s: string, x: string)
    requires x != [] && x[|x| - 1] != 'n' && !IsSpace(x[|x| - 1])
    ensures SetOf(FindAll([x, Join], s)) <= SetOf(FindAll([Join], s))
  {
    QualifiedInJoin(s, x, 0);
  }

  /**
   * A query in which `from` and `join` are never followed by whitespace and a
   * word character references no table, so both table checks pass.
   */
  lemma NothingCaptured(query: string)
    requires forall j :: 0 <= j < |query| ==>
      MatchAt(Lower(query), ["from"], j).None? && MatchAt(Lower(query), [Join], j).None?
    ensures ReferencedTables(Lower(query)) == {}
    ensures Validate(query) == (if HasColumnPattern(Lower(query)) then HallucinatedColumn else Accept)
  {
    var s := Lower(query);
    ScanWithoutMatch(s, ["from"], 0);
    ScanWithoutMatch(s, [Join], 0);
    TablesFromFromAndJoin(s);
  }

  /** The verdict depends only on the lower-cased query. */
  lemma CaseInsensitive(query: string)
    ensures Validate(Lower(query)) == Validate(query)
  {
    LowerOfLower(Lower(query));
  }

  // ---------------------------------------------------------------------------
  // Queries of a known shape, and the worked scenarios
  // ---------------------------------------------------------------------------

  /** A stretch without the first character of the pattern's first keyword adds no capture. */
  lemma {:induction false} SkipWithoutFirstChar(s: string, p: Pattern, i: nat, k: nat)
    requires i <= k <= |s| && p != [] && p[0] != [] && p[0][0] !in s[i..k]
    ensures Scan(s, p, i) == Scan(s, p, k)
    decreases k - i
  {
    if i < k {
      assert s[i] == s[i..k][0];
      assert MatchAt(s, p, i).None? by {
        if i + |p[0]| <= |s| {
          assert s[i..i + |p[0]|][0] == s[i];
        }
      }
      assert s[i + 1..k] == s[i..k][1..];
      SkipWithoutFirstChar(s, p, i + 1, k);
    }
  }

  lemma ScanStep(s: string, p: Pattern, i: nat, b: nat)
    requires i < |s| && MatchAt(s, p, i) == Some(b)
    ensures Scan(s, p, i) == [Capture(s, b)] + Scan(s, p, WordEnd(s, b))
  {
  }

  /** `from` once, after a prefix without `f`, followed by one space and a word. */
  lemma FromOnce(s: string, pre: string, w: string)
    requires s == pre + "from " + w
    requires 'f' !in pre
    requires w != [] && forall c :: c in w ==> IsWord(c)
    ensures FindAll(["from"], s) == [w]
  {
    var n := |pre|;
    assert s[0..n] == pre;
    SkipWithoutFirstChar(s, ["from"], 0, n);
    assert s[n + 5..] == w;
    FromKeywordAt(s, n);
    WholeWord(s, n + 5);
    ScanStep(s, ["from"], n, n + 5);
  }

  /** `from`, one space and a word character at `n`: the match captures from `n + 5`. */
  lemma FromKeywordAt(s: string, n: nat)
    requires n + 5 < |s| && s[n..n + 5] == "from " && IsWord(s[n + 5])
    ensures MatchAt(s, ["from"], n) == Some(n + 5)
  {
    assert s[n..n + 4] == s[n..n + 5][..4];
    assert s[n + 4] == s[n..n + 5][4];
    assert SpaceEnd(s, n + 4) == n + 5;
  }

  /** A suffix made only of word characters is captured whole. */
  lemma WholeWord(s: string, b: nat)
    requires b <= |s| && forall c :: c in s[b..] ==> IsWord(c)
    ensures WordEnd(s, b) == |s| && Capture(s, b) == s[b..]
  {
    forall m | b <= m < |s| ensures IsWord(s[m]) {
      assert s[m] == s[b..][m - b];
    }
  }

  /**
   * `from` once, after a prefix without `f`, followed by a space and a
   * character that is neither a word character nor whitespace (a quote, a
   * parenthesis): nothing is captured.
   */
  lemma FromWithoutName(s: string, pre: string, rest: string)
    requires s == pre + "from " + rest
    requires 'f' !in pre && 'f' !in rest
    requires rest != [] && !IsWord(rest[0]) && !IsSpace(rest[0])
    ensures FindAll(["from"], s) == []
  {
    var n := |pre|;
    assert s[0..n] == pre;
    SkipWithoutFirstChar(s, ["from"], 0, n);
    assert s[n..n + 5] == "from ";
    assert s[n + 5..] == rest;
    FromWithoutNameAt(s, n);
  }

  /** The same, stated on positions: `from ` at `n`, then a character that does not start a word. */
  lemma FromWithoutNameAt(s: string, n: nat)
    requires n + 5 < |s| && s[n..n + 5] == "from "
    requires !IsWord(s[n + 5]) && !IsSpace(s[n + 5]) && 'f' !in s[n + 5..]
    ensures Scan(s, ["from"], n) == []
  {
    assert s[n..n + 4] == s[n..n + 5][..4];
    assert s[n + 4] == s[n..n + 5][4];
    assert SpaceEnd(s, n + 4) == n + 5;
    assert MatchAt(s, ["from"], n).None?;
    forall m | n + 1 <= m < n + 5 ensures s[m] != 'f' {
      assert s[m] == s[n..n + 5][m - n];
    }
    assert 'f' !in s[n + 1..n + 5];
    SkipWithoutFirstChar(s, ["from"], n + 1, n + 5);
    assert s[n + 5..|s|] == s[n + 5..];
    SkipWithoutFirstChar(s, ["from"], n + 5, |s|);
  }

  lemma NoJoin(s: string)
    requires 'j' !in s
    ensures FindAll([Join], s) == []
  {
    assert s[0..|s|] == s;
    SkipWithoutFirstChar(s, [Join], 0, |s|);
  }

  /** A query whose only table reference is `from <w>` references exactly `w`. */
  lemma SingleFrom(s: string, pre: string, w: string)
    requires s == pre + "from " + w
    requires 'f' !in pre && 'j' !in pre && 'j' !in w
    requires w != [] && forall c :: c in w ==> IsWord(c)
    ensures ReferencedTables(s) == {w}
  {
    FromOnce(s, pre, w);
    assert 'j' !in s;
    NoJoin(s);
    TablesFromFromAndJoin(s);
    assert SetOf([w]) == {w};
  }

  /** A text that lacks a character of `pat` does not contain `pat`. */
  lemma MissingChar(s: string, pat: string, c: char)
    requires c in pat && c !in s
    ensures !Contains(s, pat)
  {
    forall i | 0 <= i <= |s| - |pat|
      ensures !OccursAt(s, pat, i)
    {
      var k :| 0 <= k < |pat| && pat[k] == c;
      assert s[i..i + |pat|][k] == s[i + k];
      assert s[i + k] in s;
    }
  }

  /** Every column pattern contains an `a` or a `d`. */
  lemma NoColumnPatternWithout(s: string)
    requires 'a' !in s && 'd' !in s
    ensures !HasColumnPattern(s)
  {
    forall k | 0 <= k < |ColumnPatterns|
      ensures !Contains(s, ColumnPatterns[k])
    {
      var pat := ColumnPatterns[k];
      assert pat in ColumnPatterns;
      if 'a' in pat {
        MissingChar(s, pat, 'a');
      } else {
        MissingChar(s, pat, 'd');
      }
    }
  }

  /** Empty `from` and `join` captures mean no referenced table at all. */
  lemma ReferencesOnlyFromAndJoin(s: string)
    requires FindAll(["from"], s) == [] && FindAll([Join], s) == []
    ensures ReferencedTables(s) == {}
  {
    TablesFromFromAndJoin(s);
  }

  /** The verdict for a query that references no table. */
  lemma NoTableVerdict(query: string)
    requires ReferencedTables(Lower(query)) == {}
    ensures Validate(query) == if HasColumnPattern(Lower(query)) then HallucinatedColumn else Accept
  {
  }

  /** The verdict for a query that references exactly one table. */
  lemma SingleTableVerdict(query: string, w: string)
    requires ReferencedTables(Lower(query)) == {w}
    ensures w !in ValidTables ==> Validate(query) == InvalidTables({w})
    ensures w in ValidTables ==>
      Validate(query) == if HasColumnPattern(Lower(query)) then HallucinatedColumn else Accept
  {
  }

  // Facts about the four example queries as literals: each one lowered, each
  // one cut around its `from`, and the letters it lacks. Each is stated once
  // on the literal alone, so that the scenarios below only combine them.

  lemma PaymentsLower()
    ensures Lower("SELECT * FROM payments") == "select * from payments"
  {
  }

  lemma PaymentsSplit()
    ensures "select * from payments" == "select * " + "from " + "payments"
  {
  }

  lemma CustomerIdLower()
    ensures Lower("SELECT CustomerId FROM customers") == "select customerid from customers"
  {
  }

  lemma CustomerIdSplit()
    ensures "select customerid from customers" == "select customerid " + "from " + "customers"
    ensures "select customerid from customers" == "select " + "customerid" + " from customers"
  {
  }

  lemma CustomersLower()
    ensures Lower("SELECT * FROM customers") == "select * from customers"
  {
  }

  lemma CustomersSplit()
    ensures "select * from customers" == "select * " + "from " + "customers"
  {
  }

  lemma CustomersHasNoAOrD()
    ensures 'a' !in "select * from customers" && 'd' !in "select * from customers"
  {
  }

  lemma QuotedLower()
    ensures Lower("SELECT * FROM \"customers\"") == "select * from \"customers\""
  {
  }

  lemma QuotedSplit()
    ensures "select * from \"customers\"" == "select * " + "from " + "\"customers\""
  {
  }

  lemma QuotedHasNoAOrD()
    ensures 'a' !in "select * from \"customers\"" && 'd' !in "select * from \"customers\""
  {
  }

  /** `SELECT * FROM payments` is rejected with the invalid-table reason, not the hallucinated one. */
  lemma PaymentsRejectedAsInvalid(query: string)
    requires query == "SELECT * FROM payments"
    ensures Validate(query) == InvalidTables({"payments"})
  {
    PaymentsLower();
    PaymentsSplit();
    SingleFrom(Lower(query), "select * ", "payments");
    SingleTableVerdict(query, "payments");
  }

  /** A text that has a fragment at `i` fails the column check. */
  lemma FragmentAt(s: string, k: nat, i: nat)
    requires k < |ColumnPatterns| && i + |ColumnPatterns[k]| <= |s|
    requires s[i..i + |ColumnPatterns[k]|] == ColumnPatterns[k]
    ensures HasColumnPattern(s)
  {
    assert OccursAt(s, ColumnPatterns[k], i);
  }

  /** `SELECT CustomerId FROM customers` names a valid table but contains `customerid`. */
  lemma CustomerIdRejected(query: string)
    requires query == "SELECT CustomerId FROM customers"
    ensures Validate(query) == HallucinatedColumn
  {
    CustomerIdLower();
    CustomerIdSplit();
    var s := Lower(query);
    SingleFrom(s, "select customerid ", "customers");
    assert s[7..17] == "customerid";
    FragmentAt(s, 0, 7);
    SingleTableVerdict(query, "customers");
  }

  /** `SELECT * FROM customers` is accepted. */
  lemma CustomersAccepted(query: string)
    requires query == "SELECT * FROM customers"
    ensures Validate(query) == Accept
  {
    CustomersLower();
    CustomersSplit();
    CustomersHasNoAOrD();
    var s := Lower(query);
    SingleFrom(s, "select * ", "customers");
    NoColumnPatternWithout(s);
    SingleTableVerdict(query, "customers");
  }

  /** A quoted name after `FROM` is not captured, so no table check can fail. */
  lemma QuotedNameNotChecked(query: string)
    requires query == "SELECT * FROM \"customers\""
    ensures Validate(query) == Accept
  {
    QuotedLower();
    QuotedSplit();
    QuotedHasNoAOrD();
    var s := Lower(query);
    FromWithoutName(s, "select * ", "\"customers\"");
    NoJoin(s);
    ReferencesOnlyFromAndJoin(s);
    NoColumnPatternWithout(s);
    NoTableVerdict(query);
  }
}
