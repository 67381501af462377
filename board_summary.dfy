/** The two column builders of the board listing (list_boards): boardflags
    names a board's switched-on features, boardquota lays out its numeric
    limits in fixed-width columns. A board record is modelled by its
    integer-valued fields; boards.json gives the feature switches as 0/1. */
module BoardSummary {
  import opened Text

  type Board = map<string, int>

  /** boardbools: the feature switches and their short names, in the
      order list_boards lists them. */
  const BoardBools: seq<(string, string)> := [
    ("code_tags", "code"),
    ("country_flags", "flags"),
    ("forced_anon", "anon"),
    ("is_archived", "arch"),
    ("math_tags", "math"),
    ("oekaki", "oe"),
    ("require_subject", "subject"),
    ("sjis_tags", "sjis"),
    ("spoilers", "spoil"),
    ("text_only", "txt"),
    ("troll_flags", "troll"),
    ("user_ids", "uid"),
    ("webm_audio", "webm")
  ]

  /** boardints: the numeric limits, a short name and a column width. */
  const BoardInts: seq<(string, string, nat)> := [
    ("pages", "pages", 3),
    ("per_page", "perpage", 3),
    ("bump_limit", "bumps", 4),
    ("image_limit", "image", 4),
    ("max_comment_chars", "cmtsize", 5),
    ("max_filesize", "filesize", 9),
    ("max_webm_duration", "webmtime", 4),
    ("max_webm_filesize", "webmsize", 8),
    ("custom_spoilers", "spoil", 2),
    ("min_image_height", "imgh", 5),
    ("min_image_width", "imgw", 5)
  ]

  /** b.get(k) is truthy: present and not zero. */
  predicate Truthy(b: Board, k: string)
  {
    k in b && b[k] != 0
  }

  // ---- boardflags ----

  /** The short names of the switches that are on, in table order. */
  function KeptNames(table: seq<(string, string)>, b: Board): seq<string>
  {
    if table == [] then []
    else
      var last := table[|table| - 1];
      KeptNames(table[..|table| - 1], b) + (if Truthy(b, last.0) then [last.1] else [])
  }

  /** The table positions of the switches that are on, in increasing order. */
  function OnIndices(table: seq<(string, string)>, b: Board): seq<nat>
  {
    if table == [] then []
    else
      var n := |table| - 1;
      OnIndices(table[..n], b) + (if Truthy(b, table[n].0) then [n] else [])
  }

  /** KeptNames picks, in increasing table order, the short name of every
      switch that is on and of nothing else. */
  lemma {:induction false} KeptNamesInTableOrder(table: seq<(string, string)>, b: Board)
    ensures var ix, kept := OnIndices(table, b), KeptNames(table, b);
      && |ix| == |kept|
      && (forall m :: 0 <= m < |ix| ==> ix[m] < |table| && Truthy(b, table[ix[m]].0) && kept[m] == table[ix[m]].1)
      && (forall m, n :: 0 <= m < n < |ix| ==> ix[m] < ix[n])
      && (forall i :: 0 <= i < |table| && Truthy(b, table[i].0) ==> i in ix)
  {
    if table != [] {
      var n := |table| - 1;
      var front := table[..n];
      KeptNamesInTableOrder(front, b);
      var ix0 := OnIndices(front, b);
      assert forall m :: 0 <= m < |ix0| ==> ix0[m] < n && table[ix0[m]] == front[ix0[m]];
    }
  }

  /** boardflags(b), with the table it reads from list_boards passed in:
      the short names of the switches that are on, joined with ",". */
  method BoardFlags(boardbools: seq<(string, string)>, b: Board) returns (s: string)
    ensures s == Join(",", KeptNames(boardbools, b))
  {
    var l: seq<string> := [];
    for i := 0 to |boardbools|
      invariant l == KeptNames(boardbools[..i], b)
    {
      var (k, v) := boardbools[i];
      assert boardbools[..i + 1][..i] == boardbools[..i];
      if Truthy(b, k) {
        l := l + [v];
      }
    }
    assert boardbools[..|boardbools|] == boardbools;
    s := Join(",", l);
  }

  /** The flags column can be split back into exactly the names that are on
      (an empty column when none is). */
  lemma BoardFlagsSplit(b: Board)
    ensures var kept := KeptNames(BoardBools, b);
      Split(Join(",", kept), ',') == if kept == [] then [""] else kept
  {
    var kept := KeptNames(BoardBools, b);
    KeptNamesInTableOrder(BoardBools, b);
    assert forall i :: 0 <= i < |BoardBools| ==> ',' !in BoardBools[i].1;
    SplitJoin(kept, ',');
  }

  // ---- boardquota ----

  /** b.get(k, 0). */
  function QuotaValue(b: Board, k: string): int
  {
    if k in b then b[k] else 0
  }

  /** str(b.get(k, 0)).rjust(w) for one table entry (k, _, w). */
  function Column(b: Board, entry: (string, string, nat)): string
  {
    RJust(IntToStr(QuotaValue(b, entry.0)), entry.2)
  }

  /** One right-justified column per table entry. */
  function QuotaColumns(table: seq<(string, string, nat)>, b: Board): seq<string>
  {
    if table == [] then []
    else QuotaColumns(table[..|table| - 1], b) + [Column(b, table[|table| - 1])]
  }

  /** boardquota(b), with the table it reads from list_boards passed in:
      the columns side by side. */
  method BoardQuota(boardints: seq<(string, string, nat)>, b: Board) returns (s: string)
    ensures s == Concat(QuotaColumns(boardints, b))
  {
    var l: seq<string> := [];
    for i := 0 to |boardints|
      invariant l == QuotaColumns(boardints[..i], b)
    {
      assert boardints[..i + 1][..i] == boardints[..i];
      l := l + [Column(b, boardints[i])];
    }
    assert boardints[..|boardints|] == boardints;
    s := Concat(l);
  }

  /** One column: str(q) padded on the left with spaces to width `w` (wider
      when q does not fit), from which stripping the padding reads q back. */
  lemma ColumnReadsBack(q: int, w: nat)
    ensures var col := RJust(IntToStr(q), w);
      && |col| == Max(w, |IntToStr(q)|)
      && col[|col| - |IntToStr(q)|..] == IntToStr(q)
      && (forall j :: 0 <= j < |col| - |IntToStr(q)| ==> col[j] == ' ')
      && ParseInt(LStripSpaces(col)) == q
  {
    RJustShape(IntToStr(q), w);
    LStripRJust(IntToStr(q), w);
    IntToStrRoundTrip(q);
  }

  lemma {:induction false} QuotaColumnsLength(table: seq<(string, string, nat)>, b: Board)
    ensures |QuotaColumns(table, b)| == |table|
  {
    if table != [] {
      QuotaColumnsLength(table[..|table| - 1], b);
    }
  }

  /** There is one column per table entry, built from that entry alone. */
  lemma {:induction false} QuotaColumnAt(table: seq<(string, string, nat)>, b: Board, i: nat)
    requires i < |table|
    ensures |QuotaColumns(table, b)| == |table|
    ensures QuotaColumns(table, b)[i] == Column(b, table[i])
  {
    var n := |table| - 1;
    var front := table[..n];
    QuotaColumnsLength(table, b);
    QuotaColumnsLength(front, b);
    assert QuotaColumns(table, b) == QuotaColumns(front, b) + [Column(b, table[n])];
    if i < n {
      QuotaColumnAt(front, b, i);
      assert front[i] == table[i];
    }
  }

  /** Column i reads back as the value at key i (0 for a missing key) and is
      as wide as the table says, or wider when that value does not fit. */
  lemma QuotaColumnsReadBack(table: seq<(string, string, nat)>, b: Board, i: nat)
    requires i < |table|
    ensures i < |QuotaColumns(table, b)|
    ensures ParseInt(LStripSpaces(QuotaColumns(table, b)[i])) == QuotaValue(b, table[i].0)
    ensures table[i].0 !in b ==> ParseInt(LStripSpaces(QuotaColumns(table, b)[i])) == 0
    ensures var q, col := IntToStr(QuotaValue(b, table[i].0)), QuotaColumns(table, b)[i];
      && |col| == Max(table[i].2, |q|)
      && col[|col| - |q|..] == q
      && (forall j :: 0 <= j < |col| - |q| ==> col[j] == ' ')
  {
    QuotaColumnAt(table, b, i);
    ColumnReadsBack(QuotaValue(b, table[i].0), table[i].2);
  }

  /** Every value fits its column. */
  predicate FitsWidths(table: seq<(string, string, nat)>, b: Board)
  {
    forall i :: 0 <= i < |table| ==> |IntToStr(QuotaValue(b, table[i].0))| <= table[i].2
  }

  /** The sum of the column widths. */
  function WidthSum(table: seq<(string, string, nat)>): nat
  {
    if table == [] then 0 else table[0].2 + WidthSum(table[1..])
  }

  lemma {:induction false} WidthSumLast(table: seq<(string, string, nat)>)
    requires table != []
    ensures WidthSum(table) == WidthSum(table[..|table| - 1]) + table[|table| - 1].2
  {
    if |table| > 1 {
      WidthSumLast(table[1..]);
      assert table[1..][..|table| - 2] == table[..|table| - 1][1..];
    }
  }

  lemma {:induction false} QuotaLength(table: seq<(string, string, nat)>, b: Board)
    requires FitsWidths(table, b)
    ensures |Concat(QuotaColumns(table, b))| == WidthSum(table)
  {
    if table != [] {
      var n := |table| - 1;
      assert FitsWidths(table[..n], b) by {
        forall i | 0 <= i < n ensures |IntToStr(QuotaValue(b, table[..n][i].0))| <= table[..n][i].2 {
          assert table[..n][i] == table[i];
        }
      }
      QuotaLength(table[..n], b);
      WidthSumLast(table);
      QuotaColumnAt(table, b, n);
      RJustShape(IntToStr(QuotaValue(b, table[n].0)), table[n].2);
    }
  }

  /** When every value fits, the quota column is always 52 characters wide. */
  lemma QuotaLineWidth(b: Board)
    requires FitsWidths(BoardInts, b)
    ensures |Concat(QuotaColumns(BoardInts, b))| == 52
  {
    QuotaLength(BoardInts, b);
  }
}
