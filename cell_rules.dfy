/** Per-cell and per-surface decisions of the table body (packages/table/src/body.ts):
    the effective overflow mode, which hover handlers a cell gets and whether they run,
    fixed-column hiding, merge spans, which columns a surface renders, the empty-state
    content and the keys under which a surface registers its elements. */
module CellRules {
  import opened Options

  /** The side a body surface or a column is pinned to; `None` stands for the main
      surface or an unpinned column. */
  datatype Side = Left | Right

  /** A `showOverflow` setting: absent (undefined or null), a boolean, or a mode name. */
  datatype OverflowSetting = Inherit | Flag(on: bool) | Named(mode: string)

  /** JavaScript truthiness of a table-wide `showOverflow`. */
  predicate Truthy(o: OverflowSetting)
  {
    match o
    case Inherit => false
    case Flag(b) => b
    case Named(m) => m != ""
  }

  /** The column's own setting unless it is absent, else the table's. */
  function EffectiveOverflow(column: OverflowSetting, table: OverflowSetting): (o: OverflowSetting)
    ensures !column.Inherit? ==> o == column
    ensures column.Inherit? ==> o == table
  {
    if column.Inherit? then table else column
  }

  /** The decoration flags a cell is rendered with. */
  datatype OverflowMode = OverflowMode(showTitle: bool, showTooltip: bool, showEllipsis: bool, hasEllipsis: bool)

  /** The overflow mode of a cell. Under horizontal or vertical virtual scroll a cell that
      selected no mode is forced to ellipsis, since rows must keep a fixed height. */
  function CellOverflow(column: OverflowSetting, table: OverflowSetting, scrollXLoad: bool, scrollYLoad: bool): (m: OverflowMode)
    ensures m.showTitle <==> EffectiveOverflow(column, table) == Named("title")
    ensures m.showTooltip <==> EffectiveOverflow(column, table) in {Flag(true), Named("tooltip")}
    ensures !(m.showTitle && m.showTooltip) && !(m.showTitle && m.showEllipsis) && !(m.showTooltip && m.showEllipsis)
    ensures m.hasEllipsis <==> m.showTitle || m.showTooltip || m.showEllipsis
    ensures scrollXLoad || scrollYLoad ==> m.hasEllipsis
    ensures !scrollXLoad && !scrollYLoad ==> (m.showEllipsis <==> EffectiveOverflow(column, table) == Named("ellipsis"))
    ensures m.showEllipsis && EffectiveOverflow(column, table) != Named("ellipsis") ==> scrollXLoad || scrollYLoad
  {
    var cellOverflow := EffectiveOverflow(column, table);
    var showEllipsis := cellOverflow == Named("ellipsis");
    var showTitle := cellOverflow == Named("title");
    var showTooltip := cellOverflow == Flag(true) || cellOverflow == Named("tooltip");
    var hasEllipsis := showTitle || showTooltip || showEllipsis;
    if (scrollXLoad || scrollYLoad) && !hasEllipsis then
      OverflowMode(showTitle, showTooltip, true, true)
    else
      OverflowMode(showTitle, showTooltip, showEllipsis, hasEllipsis)
  }

  /** Which event handlers a cell is rendered with. */
  datatype CellHandlers = CellHandlers(mouseenter: bool, mouseleave: bool, mousedown: bool, click: bool, dblclick: bool)

  function HandlersFor(m: OverflowMode, tooltipEnabled: bool, checkboxRange: bool, mouseConfig: bool): (h: CellHandlers)
    ensures h.click && h.dblclick
    ensures h.mouseenter <==> m.showTitle || m.showTooltip || tooltipEnabled
    ensures h.mouseleave <==> m.showTooltip || tooltipEnabled
    ensures h.mouseleave ==> h.mouseenter
    ensures h.mousedown <==> checkboxRange || mouseConfig
  {
    CellHandlers(m.showTitle || m.showTooltip || tooltipEnabled, m.showTooltip || tooltipEnabled,
                 checkboxRange || mouseConfig, true, true)
  }

  /** isOperateMouse: a column resize is in progress, or the last scroll happened less
      than `delayHover` ms before `now`. A `lastScrollTime` of 0 means no scroll yet. */
  predicate IsOperateMouse(isResize: bool, lastScrollTime: int, now: int, delayHover: int)
    ensures isResize ==> IsOperateMouse(isResize, lastScrollTime, now, delayHover)
    ensures lastScrollTime == 0 ==> (IsOperateMouse(isResize, lastScrollTime, now, delayHover) <==> isResize)
  {
    isResize || (lastScrollTime != 0 && now < lastScrollTime + delayHover)
  }

  /** Hover handling is suppressed for the whole window after a scroll, and only then
      (when no resize is in progress). */
  lemma HoverSuppressionWindow(lastScrollTime: int, now: int, delayHover: int)
    requires lastScrollTime > 0 && lastScrollTime <= now
    ensures IsOperateMouse(false, lastScrollTime, now, delayHover) <==> now - lastScrollTime < delayHover
  {
  }

  /** What a cell's mouseenter handler does: nothing while the mouse is "operating",
      otherwise either refresh the native title or raise the tooltip (and, in both cases,
      dispatch cell-mouseenter). */
  datatype EnterEffect = EnterIgnored | EnterHandled(updateTitle: bool, triggerTooltip: bool)

  function CellMouseEnter(m: OverflowMode, tooltipEnabled: bool, operating: bool): (e: EnterEffect)
    requires HandlersFor(m, tooltipEnabled, false, false).mouseenter
    ensures e.EnterIgnored? <==> operating
    ensures e.EnterHandled? ==> (e.updateTitle <==> m.showTitle) && (e.triggerTooltip <==> !m.showTitle)
    ensures e.EnterHandled? ==> e.updateTitle != e.triggerTooltip
  {
    if operating then EnterIgnored
    else if m.showTitle then EnterHandled(true, false)
    else EnterHandled(false, m.showTooltip || tooltipEnabled)
  }

  /** What a cell's mouseleave handler does: nothing while the mouse is "operating",
      otherwise end the tooltip target (and dispatch cell-mouseleave). */
  datatype LeaveEffect = LeaveIgnored | LeaveHandled(leaveTarget: bool)

  function CellMouseLeave(m: OverflowMode, tooltipEnabled: bool, operating: bool): (e: LeaveEffect)
    requires HandlersFor(m, tooltipEnabled, false, false).mouseleave
    ensures e.LeaveIgnored? <==> operating
    ensures e.LeaveHandled? ==> e.leaveTarget
  {
    if operating then LeaveIgnored else LeaveHandled(m.showTooltip || tooltipEnabled)
  }

  /** The row-level hover pair of renderRows: without `highlightHoverRow` a row has no
      hover handlers; otherwise entering sets and leaving clears the hover row, except
      while the mouse is "operating". */
  datatype RowHoverEffect = NoRowHandler | RowHoverIgnored | SetHoverRow | ClearHoverRow

  function RowHover(highlightHoverRow: bool, operating: bool, entering: bool): (e: RowHoverEffect)
    ensures e.NoRowHandler? <==> !highlightHoverRow
    ensures e.RowHoverIgnored? <==> highlightHoverRow && operating
    ensures e.SetHoverRow? <==> highlightHoverRow && !operating && entering
    ensures e.ClearHoverRow? <==> highlightHoverRow && !operating && !entering
  {
    if !highlightHoverRow then NoRowHandler
    else if operating then RowHoverIgnored
    else if entering then SetHoverRow
    else ClearHoverRow
  }

  /** Within `delayHover` ms after a scroll, every hover handler of the body (cell enter,
      cell leave, row enter and row leave) does nothing; once the window has passed and
      no resize is in progress, each of them acts. */
  lemma HoverQuietAfterScroll(m: OverflowMode, tooltipEnabled: bool, highlightHoverRow: bool, entering: bool,
                              isResize: bool, lastScrollTime: int, now: int, delayHover: int)
    requires HandlersFor(m, tooltipEnabled, false, false).mouseleave
    requires lastScrollTime > 0 && lastScrollTime <= now
    ensures var op := IsOperateMouse(isResize, lastScrollTime, now, delayHover);
      now - lastScrollTime < delayHover ==>
        CellMouseEnter(m, tooltipEnabled, op).EnterIgnored? && CellMouseLeave(m, tooltipEnabled, op).LeaveIgnored? &&
        !RowHover(highlightHoverRow, op, entering).SetHoverRow? && !RowHover(highlightHoverRow, op, entering).ClearHoverRow?
    ensures var op := IsOperateMouse(isResize, lastScrollTime, now, delayHover);
      !isResize && now - lastScrollTime >= delayHover ==>
        CellMouseEnter(m, tooltipEnabled, op).EnterHandled? && CellMouseLeave(m, tooltipEnabled, op).LeaveHandled? &&
        (highlightHoverRow ==> !RowHover(highlightHoverRow, op, entering).RowHoverIgnored?)
  {
    HoverSuppressionWindow(lastScrollTime, now, delayHover);
  }

  /** The raw fixed-column hiding rule: on a fixed surface a cell is hidden unless its
      column is pinned to that side; on the main surface a pinned column's cell is hidden
      when the body overflows horizontally. */
  predicate FixedHiddenRaw(surface: Option<Side>, columnFixed: Option<Side>, overflowX: bool)
  {
    if surface.Some? then columnFixed != surface else columnFixed.Some? && overflowX
  }

  /** Where a cell is drawn visibly: an unpinned column only on the main surface; a pinned
      column on its own fixed surface, and on the main surface too while the body does not
      overflow horizontally. */
  lemma VisibleSurfaces(columnFixed: Option<Side>, overflowX: bool)
    ensures columnFixed.None? ==>
      forall surface :: !FixedHiddenRaw(surface, columnFixed, overflowX) <==> surface.None?
    ensures columnFixed.Some? ==>
      forall surface :: !FixedHiddenRaw(surface, columnFixed, overflowX) <==>
        surface == columnFixed || (surface.None? && !overflowX)
  {
  }

  /** A merge span (origin cell's rowspan and colspan). */
  datatype Span = Span(rowspan: int, colspan: int)

  /** What `spanMethod` returned: each field may be undefined (`None`). A field that is
      present but falsy (`null` or `0`) is `Some(0)`: the destructuring default applies only
      to `undefined`, and every falsy value drops the cell alike. */
  datatype SpanReply = SpanReply(rowspan: Option<int>, colspan: Option<int>)

  /** Where a cell's span comes from: no merging configured, a lookup in the non-empty
      merge list (its result for this cell, if any), or the `spanMethod` callback (its
      reply, if it returned anything). */
  datatype SpanSource = NoMerge | MergeList(hit: Option<Span>) | SpanMethod(reply: Option<SpanReply>)

  /** Which source renderColumn consults: a non-empty merge list wins over `spanMethod`;
      with neither, no merging. */
  function SpanSourceOf(mergeListNonEmpty: bool, mergeHit: Option<Span>, hasSpanMethod: bool,
                        reply: Option<SpanReply>): (src: SpanSource)
    ensures mergeListNonEmpty ==> src == MergeList(mergeHit)
    ensures !mergeListNonEmpty && hasSpanMethod ==> src == SpanMethod(reply)
    ensures !mergeListNonEmpty && !hasSpanMethod ==> src == NoMerge
  {
    if mergeListNonEmpty then MergeList(mergeHit)
    else if hasSpanMethod then SpanMethod(reply)
    else NoMerge
  }

  /** The span the cell resolves to; spanMethod defaults missing fields (or a missing
      reply) to 1. */
  function ResolvedSpan(src: SpanSource): (sp: Option<Span>)
    ensures src.NoMerge? ==> sp.None?
    ensures src.SpanMethod? ==> sp.Some?
    ensures src.SpanMethod? && src.reply.None? ==> sp == Some(Span(1, 1))
    ensures src.MergeList? ==> sp == src.hit
  {
    match src
    case NoMerge => None
    case MergeList(hit) => hit
    case SpanMethod(reply) =>
      var r := reply.GetOr(SpanReply(None, None));
      Some(Span(r.rowspan.GetOr(1), r.colspan.GetOr(1)))
  }

  /** The rowspan/colspan attributes a rendered cell carries (missing means 1). */
  datatype SpanAttrs = SpanAttrs(rowspan: Option<int>, colspan: Option<int>)

  /** `None` when the cell is covered by another cell's span (a zero rowspan or colspan),
      otherwise the attributes to emit: only spans greater than 1 are written. */
  function CellSpan(src: SpanSource): (a: Option<SpanAttrs>)
    ensures a.None? <==> (ResolvedSpan(src).Some? &&
                          (ResolvedSpan(src).value.rowspan == 0 || ResolvedSpan(src).value.colspan == 0))
    ensures a.Some? && a.value.rowspan.Some? ==> a.value.rowspan.value > 1
    ensures a.Some? && a.value.colspan.Some? ==> a.value.colspan.value > 1
    ensures a.Some? && ResolvedSpan(src).Some? && ResolvedSpan(src).value.rowspan > 1 ==>
              a.value.rowspan == Some(ResolvedSpan(src).value.rowspan)
    ensures a.Some? && ResolvedSpan(src).Some? && ResolvedSpan(src).value.colspan > 1 ==>
              a.value.colspan == Some(ResolvedSpan(src).value.colspan)
    ensures a.Some? && ResolvedSpan(src).Some? ==>
              (a.value.rowspan.Some? <==> ResolvedSpan(src).value.rowspan > 1) &&
              (a.value.colspan.Some? <==> ResolvedSpan(src).value.colspan > 1)
    ensures ResolvedSpan(src).None? ==> a == Some(SpanAttrs(None, None))
  {
    match ResolvedSpan(src)
    case None => Some(SpanAttrs(None, None))
    case Some(sp) =>
      if sp.rowspan == 0 || sp.colspan == 0 then None
      else Some(SpanAttrs(if sp.rowspan > 1 then Some(sp.rowspan) else None,
                          if sp.colspan > 1 then Some(sp.colspan) else None))
  }

  /** What a surface needs to decide about one cell. */
  datatype CellEnv = CellEnv(surface: Option<Side>, overflowX: bool, scrollXLoad: bool, scrollYLoad: bool,
                             tableOverflow: OverflowSetting)

  /** What a column contributes to the decision. */
  datatype ColumnConf = ColumnConf(fixed: Option<Side>, showOverflow: OverflowSetting)

  /** The outcome of renderColumn for one cell: not rendered at all (merged away), or a
      cell with its span attributes, whether it is a hidden fixed-column shadow, whether
      only an empty placeholder is drawn inside it, and its overflow decoration. */
  datatype CellPlan =
    | MergedAway
    | Cell(attrs: SpanAttrs, fixedHidden: bool, placeholder: bool, overflow: OverflowMode)

  function PlanCell(env: CellEnv, col: ColumnConf, src: SpanSource): (p: CellPlan)
    ensures p.MergedAway? <==> CellSpan(src).None?
    ensures p.Cell? ==> p.attrs == CellSpan(src).value
    ensures p.Cell? ==>
      (p.fixedHidden <==> FixedHiddenRaw(env.surface, col.fixed, env.overflowX) &&
                          p.attrs.rowspan.None? && p.attrs.colspan.None?)
    ensures p.Cell? && (p.attrs.rowspan.Some? || p.attrs.colspan.Some?) ==> !p.fixedHidden && !p.placeholder
    ensures p.Cell? ==> (p.placeholder <==> Truthy(env.tableOverflow) && p.fixedHidden)
    ensures p.Cell? ==> p.overflow == CellOverflow(col.showOverflow, env.tableOverflow, env.scrollXLoad, env.scrollYLoad)
  {
    var fixedHiddenColumn := FixedHiddenRaw(env.surface, col.fixed, env.overflowX);
    var overflow := CellOverflow(col.showOverflow, env.tableOverflow, env.scrollXLoad, env.scrollYLoad);
    match CellSpan(src)
    case None => MergedAway
    case Some(attrs) =>
      var hidden := if fixedHiddenColumn && (attrs.colspan.GetOr(1) > 1 || attrs.rowspan.GetOr(1) > 1)
                    then false else fixedHiddenColumn;
      Cell(attrs, hidden, Truthy(env.tableOverflow) && hidden, overflow)
  }

  /** A spanMethod that returns nothing, or a merge list with no entry for the cell,
      leaves the cell as an ordinary 1x1 cell. */
  lemma UnmergedCellIsPlain(env: CellEnv, col: ColumnConf)
    ensures PlanCell(env, col, SpanMethod(None)) == PlanCell(env, col, NoMerge)
    ensures PlanCell(env, col, MergeList(None)) == PlanCell(env, col, NoMerge)
    ensures PlanCell(env, col, NoMerge).Cell? && PlanCell(env, col, NoMerge).attrs == SpanAttrs(None, None)
  {
  }

  /** renderVN's choice of columns: a fixed surface without any merging renders only its
      own fixed columns when overflow is set table-wide or columns are virtualised. */
  function SurfaceColumns<C>(surface: Option<Side>, tableColumn: seq<C>, fixedColumn: seq<C>,
                             hasMergeList: bool, hasSpanMethod: bool, keyboardMerge: bool,
                             tableOverflow: OverflowSetting, scrollXLoad: bool): (cols: seq<C>)
    ensures cols == tableColumn || cols == fixedColumn
    ensures surface.None? || hasMergeList || hasSpanMethod || keyboardMerge ==> cols == tableColumn
    ensures (surface.Some? && !hasMergeList && !hasSpanMethod && !keyboardMerge &&
             (Truthy(tableOverflow) || scrollXLoad)) ==> cols == fixedColumn
    ensures !Truthy(tableOverflow) && !scrollXLoad ==> cols == tableColumn
  {
    if !hasMergeList && !hasSpanMethod && !keyboardMerge then
      if surface.Some? && Truthy(tableOverflow) then fixedColumn
      else if scrollXLoad then (if surface.Some? then fixedColumn else tableColumn)
      else tableColumn
    else tableColumn
  }

  /** The empty-state content: the `empty` slot, else the `renderEmpty` of the renderer
      registered under the configured name (when `emptyRender` is set), else `emptyText`,
      else the localised default. */
  datatype EmptyContent = SlotContent | RendererContent(name: string) | TextContent(text: string)

  /** A registered renderer, as far as the empty state is concerned. */
  datatype RendererConf = RendererConf(hasRenderEmpty: bool)

  function EmptyContentFor(hasEmptySlot: bool, emptyRender: bool, emptyName: string,
                           renderers: map<string, RendererConf>, emptyText: string, defaultText: string): (c: EmptyContent)
    ensures c.SlotContent? <==> hasEmptySlot
    ensures c.RendererContent? <==>
      !hasEmptySlot && emptyRender && emptyName in renderers && renderers[emptyName].hasRenderEmpty
    ensures c.RendererContent? ==> c.name == emptyName
    ensures c.TextContent? ==> c.text == (if emptyText != "" then emptyText else defaultText)
  {
    if hasEmptySlot then SlotContent
    else
      var compConf := if emptyRender && emptyName in renderers then Some(renderers[emptyName]) else None;
      if compConf.Some? && compConf.value.hasRenderEmpty then RendererContent(emptyName)
      else TextContent(if emptyText != "" then emptyText else defaultText)
  }

  /** The element handles a body surface registers with the table. */
  datatype Role = Wrapper | TableElem | Colgroup | List | XSpace | YSpace | EmptyBlock

  function RoleName(r: Role): string
  {
    match r
    case Wrapper => "wrapper"
    case TableElem => "table"
    case Colgroup => "colgroup"
    case List => "list"
    case XSpace => "xSpace"
    case YSpace => "ySpace"
    case EmptyBlock => "emptyBlock"
  }

  function SurfaceName(surface: Option<Side>): string
  {
    match surface
    case None => "main"
    case Some(Left) => "left"
    case Some(Right) => "right"
  }

  /** The key of a handle: `(fixedType || 'main') + "-body-" + role`. */
  function ElemKey(surface: Option<Side>, role: Role): string
  {
    SurfaceName(surface) + "-body-" + RoleName(role)
  }

  /** The roles that get a real element; fixed surfaces render neither the x-space nor
      the empty block, so those two keys hold nothing for them. */
  function RenderedRoles(surface: Option<Side>): (roles: set<Role>)
    ensures surface.None? ==> roles == {Wrapper, TableElem, Colgroup, List, XSpace, YSpace, EmptyBlock}
    ensures surface.Some? ==> XSpace !in roles && EmptyBlock !in roles && |roles| == 5
  {
    if surface.None? then {Wrapper, TableElem, Colgroup, List, XSpace, YSpace, EmptyBlock}
    else {Wrapper, TableElem, Colgroup, List, YSpace}
  }

  lemma RoleNameInjective(r1: Role, r2: Role)
    ensures RoleName(r1) == RoleName(r2) ==> r1 == r2
  {
  }

  /** No two surfaces or roles share a registry key, so the surfaces never overwrite
      each other's handles. */
  lemma ElemKeysDistinct(s1: Option<Side>, r1: Role, s2: Option<Side>, r2: Role)
    ensures ElemKey(s1, r1) == ElemKey(s2, r2) ==> s1 == s2 && r1 == r2
  {
    var k1, k2 := ElemKey(s1, r1), ElemKey(s2, r2);
    if k1 == k2 {
      assert k1[0] == SurfaceName(s1)[0] && k2[0] == SurfaceName(s2)[0];
      var n := |SurfaceName(s1) + "-body-"|;
      assert k1[n..] == RoleName(r1) && k2[n..] == RoleName(r2);
      RoleNameInjective(r1, r2);
    }
  }
}
