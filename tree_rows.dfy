/** The tree side of the table body (packages/table/src/body.ts): how many visual rows an
    expanded tree node occupies, the height of the tree connector line, and the flattening
    of a tree-shaped row list into the ordered list of rendered body rows. */
module TreeRows {
  import opened Options

  /** Rows are compared by identity; an id stands for that identity. */
  type RowId = int

  /** A row of the body with its child rows (empty when the row has none). */
  datatype Row = Row(id: RowId, children: seq<Row>)

  // ---------------------------------------------------------------------------------------
  // Tree-line geometry
  // ---------------------------------------------------------------------------------------

  /** Data rows occupied by `r` and every descendant reached through expanded rows
      (expand panels are not counted). That this is the number of data rows the body
      renders for the row is `TreeCountMatchesRenderedRow`. */
  function CountTreeExpand(r: Row, expanded: set<RowId>): (n: nat)
    ensures n >= 1
    decreases r, 1
  {
    if r.id in expanded then 1 + CountForest(r.children, expanded) else 1
  }

  /** The sum of CountTreeExpand over a list of sibling rows; it counts the data rows
      rendered for them (`TreeCountMatchesRenderedRange`). */
  function CountForest(rs: seq<Row>, expanded: set<RowId>): (n: nat)
    ensures n >= |rs|
    decreases rs, 0
  {
    if rs == [] then 0
    else CountForest(rs[..|rs| - 1], expanded) + CountTreeExpand(rs[|rs| - 1], expanded)
  }

  /** countTreeExpand as the source writes it: a counting loop over the children that
      recurses into each child. */
  method CountTreeExpandLoop(prevRow: Row, expanded: set<RowId>) returns (count: nat)
    ensures count == CountTreeExpand(prevRow, expanded)
    ensures prevRow.id !in expanded ==> count == 1
    ensures count >= |prevRow.children| + 1 || prevRow.id !in expanded
    decreases prevRow
  {
    var rowChildren := prevRow.children;
    count := 1;
    if prevRow.id in expanded {
      var index := 0;
      while index < |rowChildren|
        invariant 0 <= index <= |rowChildren|
        invariant count == 1 + CountForest(rowChildren[..index], expanded)
      {
        var c := CountTreeExpandLoop(rowChildren[index], expanded);
        assert rowChildren[..index + 1][..index] == rowChildren[..index];
        count := count + c;
        index := index + 1;
      }
      assert rowChildren[..index] == rowChildren;
    }
  }

  /** The pixel offset of the connector line for the table size: mini 3, small 2,
      medium 1, anything else (or no size) 0. */
  function OffsetSize(size: Option<string>): (o: int)
    ensures 0 <= o <= 3
    ensures o == 3 <==> size == Some("mini")
    ensures o == 2 <==> size == Some("small")
    ensures o == 1 <==> size == Some("medium")
  {
    match size
    case None => 0
    case Some(s) =>
      if s == "mini" then 3 else if s == "small" then 2 else if s == "medium" then 1 else 0
  }

  /** Height of the tree connector line drawn in the cell of the row at position
      `rowIndex` of `items`: the first row gets a short stub, every later row a line that
      spans the rows its previous sibling occupies. */
  function CalcTreeLine(rowIndex: nat, items: seq<Row>, expanded: set<RowId>,
                        rowHeight: int, size: Option<string>): (h: int)
    requires rowIndex < |items|
    ensures rowIndex == 0 ==> h == rowHeight - 12 + OffsetSize(size)
    ensures rowIndex == 0 ==> rowHeight - 12 <= h <= rowHeight - 9
    ensures rowIndex > 0 ==> h + 1 == rowHeight * CountTreeExpand(items[rowIndex - 1], expanded)
    ensures rowIndex > 0 && items[rowIndex - 1].id !in expanded ==> h == rowHeight - 1
    ensures rowIndex > 0 && rowHeight >= 0 ==> h >= rowHeight - 1
  {
    var expandSize := if rowIndex != 0 then CountTreeExpand(items[rowIndex - 1], expanded) else 1;
    MulAtLeast(rowHeight, expandSize);
    rowHeight * expandSize - (if rowIndex != 0 then 1 else 12 - OffsetSize(size))
  }

  lemma MulAtLeast(a: int, n: nat)
    requires n >= 1
    ensures a >= 0 ==> a * n >= a
  {
  }

  // ---------------------------------------------------------------------------------------
  // Display sequence labels
  // ---------------------------------------------------------------------------------------

  /** The number a string of decimal digits denotes (most significant digit first). */
  function DigitsValue(s: string): int
  {
    if s == [] then 0 else 10 * DigitsValue(s[..|s| - 1]) + (s[|s| - 1] as int - '0' as int)
  }

  /** Decimal digits of a natural number: they denote the number back. */
  function NatToString(n: nat): (s: string)
    ensures |s| > 0
    ensures forall i :: 0 <= i < |s| ==> '0' <= s[i] <= '9'
    ensures DigitsValue(s) == n
    ensures |s| > 1 ==> s[0] != '0'
    ensures n > 0 ==> s[0] != '0'
  {
    var d := [((n % 10) + ('0' as int)) as char];
    if n < 10 then d
    else
      var hi := NatToString(n / 10);
      assert (hi + d)[..|hi + d| - 1] == hi;
      hi + d
  }

  /** Distinct sequence numbers print differently, so a child's label names its parent. */
  lemma NatToStringInjective(a: nat, b: nat)
    ensures NatToString(a) == NatToString(b) ==> a == b
  {
  }

  /** Number of '.' characters in a label. */
  function DotCount(s: string): nat
  {
    if s == [] then 0 else DotCount(s[..|s| - 1]) + (if s[|s| - 1] == '.' then 1 else 0)
  }

  /** The `$seq` prefix handed to the children of a row whose own prefix is `parentSeq`
      and whose display sequence is `seqNo`. */
  function ChildPrefix(parentSeq: string, seqNo: nat): (p: string)
    ensures parentSeq == "" ==> p == NatToString(seqNo)
    ensures parentSeq != "" ==>
      |p| > |parentSeq| + 1 && p[..|parentSeq| + 1] == parentSeq + "." &&
      DigitsValue(p[|parentSeq| + 1..]) == seqNo &&
      p[|parentSeq| + 1..] == NatToString(seqNo)
  {
    if parentSeq != "" then parentSeq + "." + NatToString(seqNo) else NatToString(seqNo)
  }

  /** A prefix matches a tree depth: none at the top level, and one dotted component per
      ancestor below it ("3" for level 1, "3.2" for level 2). */
  predicate PrefixAtDepth(parentSeq: string, level: nat)
  {
    if level == 0 then parentSeq == "" else parentSeq != "" && DotCount(parentSeq) == level - 1
  }

  // ---------------------------------------------------------------------------------------
  // Flattening (renderRows)
  // ---------------------------------------------------------------------------------------

  /** What renderRows reads besides the rows: the tree configuration and expansion set,
      the expand column and row-expansion set, the vertical virtual-scroll state and the
      number of rendered columns. */
  datatype RenderCtx = RenderCtx(
    treeConfig: bool,
    treeExpanded: set<RowId>,
    hasExpandColumn: bool,
    rowExpanded: set<RowId>,
    scrollYLoad: bool,
    startIndex: nat,
    columnCount: nat)

  /** One rendered body row: a data row (with its `$seq` prefix, display sequence, tree
      level and position in its sibling list) or the full-width expand panel of a row. */
  datatype BodyRow =
    | DataRow(id: RowId, parentSeq: string, seqNo: nat, level: nat, localIndex: nat)
    | ExpandedRow(id: RowId, colspan: nat)

  /** Display sequence of the row at position `rowIndex` of its sibling list. */
  function DisplaySeq(ctx: RenderCtx, rowIndex: nat): nat
  {
    rowIndex + 1 + (if ctx.scrollYLoad then ctx.startIndex else 0)
  }

  /** Whether the children of `row` are rendered below it. */
  predicate ShowsChildren(ctx: RenderCtx, row: Row)
  {
    ctx.treeConfig && row.id in ctx.treeExpanded && |row.children| > 0
  }

  /** Whether the expand panel of `row` is rendered below it. */
  predicate ShowsPanel(ctx: RenderCtx, row: Row)
  {
    ctx.hasExpandColumn && row.id in ctx.rowExpanded
  }

  /** The rows rendered for `items` at sibling positions 0 .. hi-1, in pre-order. */
  function FlattenRange(parentSeq: string, level: nat, items: seq<Row>, hi: nat, ctx: RenderCtx): seq<BodyRow>
    requires hi <= |items|
    decreases items, hi
  {
    if hi == 0 then []
    else FlattenRange(parentSeq, level, items, hi - 1, ctx) + FlattenRow(parentSeq, level, items, hi - 1, ctx)
  }

  /** The rows rendered for the row at position k: the row itself, its expand panel if it
      has one, then its expanded children one level deeper. */
  function FlattenRow(parentSeq: string, level: nat, items: seq<Row>, k: nat, ctx: RenderCtx): seq<BodyRow>
    requires k < |items|
    decreases items, 0
  {
    var row := items[k];
    var seqNo := DisplaySeq(ctx, k);
    [DataRow(row.id, parentSeq, seqNo, level, k)]
    + (if ShowsPanel(ctx, row) then [ExpandedRow(row.id, ctx.columnCount)] else [])
    + (if ShowsChildren(ctx, row)
       then Flatten(ChildPrefix(parentSeq, seqNo), level + 1, row.children, ctx)
       else [])
  }

  /** The rows rendered for a whole sibling list. */
  function Flatten(parentSeq: string, level: nat, items: seq<Row>, ctx: RenderCtx): seq<BodyRow>
    decreases items, |items| + 1
  {
    FlattenRange(parentSeq, level, items, |items|, ctx)
  }

  /** renderRows: walks the sibling list, pushing each row, its expand panel and (by a
      recursive call) its expanded children. */
  method RenderRows(parentSeq: string, rowLevel: nat, tableData: seq<Row>, ctx: RenderCtx)
    returns (rows: seq<BodyRow>)
    ensures rows == Flatten(parentSeq, rowLevel, tableData, ctx)
    decreases tableData
  {
    rows := [];
    var rowIndex := 0;
    while rowIndex < |tableData|
      invariant 0 <= rowIndex <= |tableData|
      invariant rows == FlattenRange(parentSeq, rowLevel, tableData, rowIndex, ctx)
    {
      var row := tableData[rowIndex];
      var seqNo := rowIndex + 1;
      if ctx.scrollYLoad {
        seqNo := seqNo + ctx.startIndex;
      }
      assert seqNo == DisplaySeq(ctx, rowIndex);
      var step := [DataRow(row.id, parentSeq, seqNo, rowLevel, rowIndex)];
      if ctx.hasExpandColumn && row.id in ctx.rowExpanded {
        step := step + [ExpandedRow(row.id, ctx.columnCount)];
      }
      if ctx.treeConfig && |ctx.treeExpanded| > 0 {
        if |row.children| > 0 && row.id in ctx.treeExpanded {
          var prefix := if parentSeq != "" then parentSeq + "." + NatToString(seqNo) else NatToString(seqNo);
          assert prefix == ChildPrefix(parentSeq, seqNo);
          var childRows := RenderRows(prefix, rowLevel + 1, row.children, ctx);
          step := step + childRows;
        }
      }
      assert step == FlattenRow(parentSeq, rowLevel, tableData, rowIndex, ctx);
      rows := rows + step;
      rowIndex := rowIndex + 1;
    }
  }

  // ---------------------------------------------------------------------------------------
  // What the rendered list means
  // ---------------------------------------------------------------------------------------

  /** Number of data rows (not expand panels) in a rendered list. */
  function DataRowCount(rows: seq<BodyRow>): nat
  {
    if rows == [] then 0
    else DataRowCount(rows[..|rows| - 1]) + (if rows[|rows| - 1].DataRow? then 1 else 0)
  }

  lemma {:induction false} DataRowCountConcat(a: seq<BodyRow>, b: seq<BodyRow>)
    ensures DataRowCount(a + b) == DataRowCount(a) + DataRowCount(b)
    decreases |b|
  {
    if b != [] {
      assert (a + b)[..|a + b| - 1] == a + b[..|b| - 1];
      DataRowCountConcat(a, b[..|b| - 1]);
    } else {
      assert a + b == a;
    }
  }

  /** The connector line of a tree row spans exactly the data rows renderRows emits for
      that row: CountTreeExpand of a row equals the number of data rows rendered for it. */
  lemma {:induction false} TreeCountMatchesRenderedRow(parentSeq: string, level: nat, items: seq<Row>, k: nat, ctx: RenderCtx)
    requires k < |items|
    requires ctx.treeConfig
    ensures DataRowCount(FlattenRow(parentSeq, level, items, k, ctx)) == CountTreeExpand(items[k], ctx.treeExpanded)
    decreases items, 0
  {
    var row := items[k];
    var seqNo := DisplaySeq(ctx, k);
    var panel: seq<BodyRow> := if ShowsPanel(ctx, row) then [ExpandedRow(row.id, ctx.columnCount)] else [];
    var kids := if ShowsChildren(ctx, row) then Flatten(ChildPrefix(parentSeq, seqNo), level + 1, row.children, ctx) else [];
    assert FlattenRow(parentSeq, level, items, k, ctx) == [DataRow(row.id, parentSeq, seqNo, level, k)] + panel + kids;
    DataRowCountConcat([DataRow(row.id, parentSeq, seqNo, level, k)] + panel, kids);
    DataRowCountConcat([DataRow(row.id, parentSeq, seqNo, level, k)], panel);
    assert DataRowCount([DataRow(row.id, parentSeq, seqNo, level, k)]) == 1;
    if ShowsChildren(ctx, row) {
      TreeCountMatchesRenderedRange(ChildPrefix(parentSeq, seqNo), level + 1, row.children, |row.children|, ctx);
      assert row.children[..|row.children|] == row.children;
    }
  }

  /** The same count for the first `hi` siblings. */
  lemma {:induction false} TreeCountMatchesRenderedRange(parentSeq: string, level: nat, items: seq<Row>, hi: nat, ctx: RenderCtx)
    requires hi <= |items|
    requires ctx.treeConfig
    ensures DataRowCount(FlattenRange(parentSeq, level, items, hi, ctx)) == CountForest(items[..hi], ctx.treeExpanded)
    decreases items, hi
  {
    if hi > 0 {
      TreeCountMatchesRenderedRange(parentSeq, level, items, hi - 1, ctx);
      TreeCountMatchesRenderedRow(parentSeq, level, items, hi - 1, ctx);
      DataRowCountConcat(FlattenRange(parentSeq, level, items, hi - 1, ctx), FlattenRow(parentSeq, level, items, hi - 1, ctx));
      assert items[..hi][..hi - 1] == items[..hi - 1];
    }
  }

  lemma {:induction false} DotCountConcat(a: string, b: string)
    ensures DotCount(a + b) == DotCount(a) + DotCount(b)
    decreases |b|
  {
    if b != [] {
      assert (a + b)[..|a + b| - 1] == a + b[..|b| - 1];
      DotCountConcat(a, b[..|b| - 1]);
    } else {
      assert a + b == a;
    }
  }

  lemma {:induction false} DigitsHaveNoDot(s: string)
    requires forall i :: 0 <= i < |s| ==> '0' <= s[i] <= '9'
    ensures DotCount(s) == 0
    decreases |s|
  {
    if s != [] {
      DigitsHaveNoDot(s[..|s| - 1]);
    }
  }

  /** The children's prefix is one level deeper than the parent's. */
  lemma ChildPrefixDeepens(parentSeq: string, level: nat, seqNo: nat)
    requires PrefixAtDepth(parentSeq, level)
    ensures PrefixAtDepth(ChildPrefix(parentSeq, seqNo), level + 1)
  {
    var d := NatToString(seqNo);
    DigitsHaveNoDot(d);
    if parentSeq != "" {
      DotCountConcat(parentSeq, ".");
      DotCountConcat(parentSeq + ".", d);
      assert DotCount(".") == 1 by {
        assert "."[..0] == [];
      }
    }
  }

  /** Every rendered data row is at least as deep as the list it came from, and carries
      the display sequence of its position. */
  ghost predicate Labelled(rows: seq<BodyRow>, level: nat, ctx: RenderCtx)
  {
    forall k :: 0 <= k < |rows| ==>
      (rows[k].DataRow? ==>
        rows[k].seqNo == DisplaySeq(ctx, rows[k].localIndex) && rows[k].level >= level) &&
      (rows[k].ExpandedRow? ==> rows[k].colspan == ctx.columnCount)
  }

  /** Every rendered data row's prefix has as many dotted components as its depth requires. */
  ghost predicate Dotted(rows: seq<BodyRow>)
  {
    forall k :: 0 <= k < |rows| && rows[k].DataRow? ==> PrefixAtDepth(rows[k].parentSeq, rows[k].level)
  }

  /** Sequence numbers, depths, expand-panel widths and dotted prefixes of everything
      renderRows emits. */
  lemma {:induction false} RenderedRowsLabelled(parentSeq: string, level: nat, items: seq<Row>, ctx: RenderCtx)
    ensures Labelled(Flatten(parentSeq, level, items, ctx), level, ctx)
    ensures PrefixAtDepth(parentSeq, level) ==> Dotted(Flatten(parentSeq, level, items, ctx))
    decreases items, |items| + 1
  {
    LabelledRange(parentSeq, level, items, |items|, ctx);
  }

  lemma {:induction false} LabelledRange(parentSeq: string, level: nat, items: seq<Row>, hi: nat, ctx: RenderCtx)
    requires hi <= |items|
    ensures Labelled(FlattenRange(parentSeq, level, items, hi, ctx), level, ctx)
    ensures PrefixAtDepth(parentSeq, level) ==> Dotted(FlattenRange(parentSeq, level, items, hi, ctx))
    decreases items, hi
  {
    if hi > 0 {
      LabelledRange(parentSeq, level, items, hi - 1, ctx);
      LabelledRow(parentSeq, level, items, hi - 1, ctx);
    }
  }

  lemma {:induction false} LabelledRow(parentSeq: string, level: nat, items: seq<Row>, k: nat, ctx: RenderCtx)
    requires k < |items|
    ensures Labelled(FlattenRow(parentSeq, level, items, k, ctx), level, ctx)
    ensures PrefixAtDepth(parentSeq, level) ==> Dotted(FlattenRow(parentSeq, level, items, k, ctx))
    decreases items, 0
  {
    var row := items[k];
    var seqNo := DisplaySeq(ctx, k);
    if ShowsChildren(ctx, row) {
      RenderedRowsLabelled(ChildPrefix(parentSeq, seqNo), level + 1, row.children, ctx);
      if PrefixAtDepth(parentSeq, level) {
        ChildPrefixDeepens(parentSeq, level, seqNo);
      }
    }
  }

  /** The data rows at exactly `level`, in rendered order. */
  function LevelRows(rows: seq<BodyRow>, level: nat): seq<BodyRow>
  {
    if rows == [] then []
    else
      var last := rows[|rows| - 1];
      LevelRows(rows[..|rows| - 1], level) + (if last.DataRow? && last.level == level then [last] else [])
  }

  lemma {:induction false} LevelRowsConcat(a: seq<BodyRow>, b: seq<BodyRow>, level: nat)
    ensures LevelRows(a + b, level) == LevelRows(a, level) + LevelRows(b, level)
    decreases |b|
  {
    if b != [] {
      assert (a + b)[..|a + b| - 1] == a + b[..|b| - 1];
      LevelRowsConcat(a, b[..|b| - 1], level);
    } else {
      assert a + b == a;
    }
  }

  lemma {:induction false} LevelRowsOfDeeper(rows: seq<BodyRow>, level: nat, ctx: RenderCtx)
    requires Labelled(rows, level + 1, ctx)
    ensures LevelRows(rows, level) == []
    decreases |rows|
  {
    if rows != [] {
      LevelRowsOfDeeper(rows[..|rows| - 1], level, ctx);
    }
  }

  /** Pre-order: restricted to the list's own level, the rendered rows are exactly the
      list's rows in their order, the row at sibling position i labelled with the display
      sequence of i, however many panels and descendants sit between a row and its next
      sibling. */
  lemma {:induction false} SiblingsKeepTheirOrder(parentSeq: string, level: nat, items: seq<Row>, ctx: RenderCtx)
    ensures |LevelRows(Flatten(parentSeq, level, items, ctx), level)| == |items|
    ensures forall i :: 0 <= i < |items| ==>
      LevelRows(Flatten(parentSeq, level, items, ctx), level)[i] ==
        DataRow(items[i].id, parentSeq, DisplaySeq(ctx, i), level, i)
  {
    SiblingsRange(parentSeq, level, items, |items|, ctx);
  }

  /** `rs` is one labelled data row for each of the first `hi` siblings, in order. */
  ghost predicate SiblingRows(rs: seq<BodyRow>, parentSeq: string, level: nat, items: seq<Row>, hi: nat, ctx: RenderCtx)
    requires hi <= |items|
  {
    |rs| == hi && forall i :: 0 <= i < hi ==> rs[i] == DataRow(items[i].id, parentSeq, DisplaySeq(ctx, i), level, i)
  }

  lemma SiblingRowsSnoc(rs: seq<BodyRow>, parentSeq: string, level: nat, items: seq<Row>, hi: nat, ctx: RenderCtx)
    requires 0 < hi <= |items|
    requires SiblingRows(rs, parentSeq, level, items, hi - 1, ctx)
    ensures SiblingRows(rs + [DataRow(items[hi - 1].id, parentSeq, DisplaySeq(ctx, hi - 1), level, hi - 1)],
                        parentSeq, level, items, hi, ctx)
  {
  }

  lemma {:induction false} SiblingsRange(parentSeq: string, level: nat, items: seq<Row>, hi: nat, ctx: RenderCtx)
    requires hi <= |items|
    ensures SiblingRows(LevelRows(FlattenRange(parentSeq, level, items, hi, ctx), level), parentSeq, level, items, hi, ctx)
    decreases hi
  {
    if hi > 0 {
      SiblingsRange(parentSeq, level, items, hi - 1, ctx);
      SiblingsStep(parentSeq, level, items, hi, ctx);
      SiblingRowsSnoc(LevelRows(FlattenRange(parentSeq, level, items, hi - 1, ctx), level), parentSeq, level, items, hi, ctx);
    } else {
      assert FlattenRange(parentSeq, level, items, 0, ctx) == [];
    }
  }

  /** Adding one more sibling adds exactly its own labelled row to the level. */
  lemma SiblingsStep(parentSeq: string, level: nat, items: seq<Row>, hi: nat, ctx: RenderCtx)
    requires 0 < hi <= |items|
    ensures LevelRows(FlattenRange(parentSeq, level, items, hi, ctx), level) ==
      LevelRows(FlattenRange(parentSeq, level, items, hi - 1, ctx), level) +
      [DataRow(items[hi - 1].id, parentSeq, DisplaySeq(ctx, hi - 1), level, hi - 1)]
  {
    var front := FlattenRange(parentSeq, level, items, hi - 1, ctx);
    var last := FlattenRow(parentSeq, level, items, hi - 1, ctx);
    assert FlattenRange(parentSeq, level, items, hi, ctx) == front + last;
    LevelRowsConcat(front, last, level);
    RowAtItsLevel(parentSeq, level, items, hi - 1, ctx);
  }

  /** Of the rows rendered for one row, only the row itself is at the list's level. */
  lemma {:induction false} RowAtItsLevel(parentSeq: string, level: nat, items: seq<Row>, k: nat, ctx: RenderCtx)
    requires k < |items|
    ensures LevelRows(FlattenRow(parentSeq, level, items, k, ctx), level) ==
      [DataRow(items[k].id, parentSeq, DisplaySeq(ctx, k), level, k)]
  {
    var row := items[k];
    var seqNo := DisplaySeq(ctx, k);
    var head := [DataRow(row.id, parentSeq, seqNo, level, k)];
    var panel: seq<BodyRow> := if ShowsPanel(ctx, row) then [ExpandedRow(row.id, ctx.columnCount)] else [];
    var kids := if ShowsChildren(ctx, row) then Flatten(ChildPrefix(parentSeq, seqNo), level + 1, row.children, ctx) else [];
    assert FlattenRow(parentSeq, level, items, k, ctx) == head + panel + kids;
    if ShowsChildren(ctx, row) {
      RenderedRowsLabelled(ChildPrefix(parentSeq, seqNo), level + 1, row.children, ctx);
    }
    LevelRowsOfDeeper(kids, level, ctx);
    LevelRowsConcat(head + panel, kids, level);
    LevelRowsConcat(head, panel, level);
    assert LevelRows(head, level) == head by {
      assert head[..0] == [];
    }
    assert LevelRows(panel, level) == [] by {
      if panel != [] {
        assert panel[..0] == [];
      }
    }
  }

  /** A list with no expanded row and no expand panel renders one data row per row, in
      order, numbered from 1 (plus the virtual-scroll start index). */
  lemma {:induction false} FlatListRendering(parentSeq: string, level: nat, items: seq<Row>, ctx: RenderCtx)
    requires forall i :: 0 <= i < |items| ==> !ShowsPanel(ctx, items[i]) && !ShowsChildren(ctx, items[i])
    ensures |Flatten(parentSeq, level, items, ctx)| == |items|
    ensures forall i :: 0 <= i < |items| ==>
      Flatten(parentSeq, level, items, ctx)[i] == DataRow(items[i].id, parentSeq, DisplaySeq(ctx, i), level, i)
  {
    FlatRange(parentSeq, level, items, |items|, ctx);
  }

  lemma {:induction false} FlatRange(parentSeq: string, level: nat, items: seq<Row>, hi: nat, ctx: RenderCtx)
    requires hi <= |items|
    requires forall i :: 0 <= i < |items| ==> !ShowsPanel(ctx, items[i]) && !ShowsChildren(ctx, items[i])
    ensures |FlattenRange(parentSeq, level, items, hi, ctx)| == hi
    ensures forall i :: 0 <= i < hi ==>
      FlattenRange(parentSeq, level, items, hi, ctx)[i] == DataRow(items[i].id, parentSeq, DisplaySeq(ctx, i), level, i)
    decreases hi
  {
    if hi > 0 {
      FlatRange(parentSeq, level, items, hi - 1, ctx);
    }
  }
}
