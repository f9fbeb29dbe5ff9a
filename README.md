# vxe-table body, grid and interceptor core in Dafny

This project models three pieces of the vxe-table component library for Vue 3 and proves
properties of them.

* **The table body** (`packages/table/src/body.ts`):
  - how many data rows a tree row with its expanded descendants occupies (expand panels not counted) (`countTreeExpand`), and the height of the tree connector line that follows from it (`calcTreeLine`, `getOffsetSize`);
  - the depth-first flattening of rows, expanded-row panels and expanded tree children into the body's `<tr>` list, with the dotted sequence labels (`renderRows`);
  - per-cell decisions of `renderColumn`: overflow mode, hover and click handlers, fixed-column hiding, merge spans, the placeholder cell;
  - the "mouse is operating" test that suppresses hover after a scroll (`isOperateMouse`);
  - the scroll synchronisation between the main body, the left and right fixed bodies, the header and the footer (`scrollEvent`, `syncBodyScroll`);
  - the column and empty-content choices of `renderVN`, and the element-registry keys.
* **The grid** (`packages/grid/src/grid.ts`):
  - the rows marked for deletion ("pending"), and which rows may still be edited;
  - the pager state, and the sequence start index a page hands to the table;
  - the maximise/revert state;
  - the state changes of `commitProxy` around query/reload/init, delete and save, including how the save body cancels rows that are both inserted and marked;
  - `getProxyInfo`.
* **The interceptor registry** (`packages/v-x-e-table/src/interceptor.ts`):
  - the event-type normalisation `toType`, and the whitelist;
  - `add`, `get`, `delete` and `mixin` over the shared store.

Modules:

* `Options`: an option type.
* `TreeRows`: tree counting, line height, row flattening.
* `CellRules`: per-cell and per-surface decisions.
* `ScrollSync`: the scroll state of the body surfaces, as a class.
* `GridState`: the grid's reactive state, as a class.
* `Interceptor`: the registry, as a class over a `map`.

Rows, callbacks, sort entries and filter entries are compared by identity in the source, so they are opaque integers here. Inputs from outside are parameters:
* the clock (`Date.now()`);
* the DOM geometry;
* the user's answer to a confirmation;
* the settled value of a request;
* the verdict of a user callback (`activeMethod`, `spanMethod`);
* the global z-index allocator.

Timer firings and the browser's native scroll events are methods that the environment calls.

The re-attach timer of `syncBodyScroll` (`scrollProcessTimeout`) is declared inside each body component's `setup`. So the main, left and right bodies each own one pending timer, and a new sync cancels only that body's own timer. `ScrollSync.TableScroll.timers` keeps one entry per body for this reason. `ScrollSync.Consistent` is the invariant that every detached scroll handler will be re-attached by one of them.

## Model

| member | source | states |
|---|---|---|
| `TreeRows.CountTreeExpand` | packages/table/src/body.ts:57-67 | a row counts at least itself (≥ 1) |
| `TreeRows.CountForest` | packages/table/src/body.ts:62-64 | the children's counts sum to at least the number of children |
| `TreeRows.CountTreeExpandLoop` | packages/table/src/body.ts:57-67 | the imperative loop with its recursive calls returns `CountTreeExpand`; an unexpanded row counts 1; an expanded one at least 1 + its number of children |
| `TreeRows.OffsetSize` | packages/table/src/body.ts:12-16 | mini/small/medium map to 3/2/1, every other size (and no size) to 0 |
| `TreeRows.CalcTreeLine` | packages/table/src/body.ts:69-76 | the first row's line is the row height minus 12 plus the size offset (between rowHeight-12 and rowHeight-9); any later row's line plus 1 is the row height times the expanded extent of the previous sibling, so exactly rowHeight-1 after an unexpanded sibling |
| `TreeRows.NatToString` | packages/table/src/body.ts:374 | a sequence number prints as a non-empty string of decimal digits, with no leading zero, that `DigitsValue` decodes back to the number |
| `TreeRows.NatToStringInjective` | packages/table/src/body.ts:374 | distinct sequence numbers print differently |
| `TreeRows.ChildPrefix` | packages/table/src/body.ts:374 | a child's `$seq` prefix is the bare number on the top level; below it, the parent's prefix, a dot, then the canonical decimal digits (`NatToString`) of the row's display sequence, so a child of row 2 is "2.3", never "2.03" |
| `TreeRows.DisplaySeq` | packages/table/src/body.ts:295-298 | the display sequence of sibling position i: i + 1, plus the virtual-scroll start index when virtual scrolling is on (specification used by `RenderRows` and the labelling lemmas) |
| `TreeRows.FlattenRange` | packages/table/src/body.ts:292-379 | the reference flattening of the first `hi` siblings, in order (specification of the `forEach` loop in `RenderRows`) |
| `TreeRows.FlattenRow` | packages/table/src/body.ts:295-376 | the reference rows pushed for one row: the row, its expand panel when the row is expanded, then its expanded children one level deeper under the child prefix |
| `TreeRows.Flatten` | packages/table/src/body.ts:292-379 | the reference flattening of a whole sibling list (what `RenderRows` is proved to return) |
| `TreeRows.RenderRows` | packages/table/src/body.ts:284-379 | the forEach/push loop (with recursion into expanded children) builds exactly the depth-first flattening `Flatten` |
| `TreeRows.TreeCountMatchesRenderedRow` | packages/table/src/body.ts:57-67 | with a tree config, the data rows rendered for one row and its expanded subtree number exactly `CountTreeExpand` of that row |
| `TreeRows.TreeCountMatchesRenderedRange` | packages/table/src/body.ts:371-376 | the same, summed over a prefix of siblings (`CountForest`) |
| `TreeRows.DataRowCountConcat` | packages/table/src/body.ts:319-376 | data-row counting is additive over the pushed segments |
| `TreeRows.DotCountConcat` | packages/table/src/body.ts:374 | dots in a concatenation add up |
| `TreeRows.DigitsHaveNoDot` | packages/table/src/body.ts:374 | a printed number contains no dot |
| `TreeRows.ChildPrefixDeepens` | packages/table/src/body.ts:374 | a child's `$seq` prefix carries exactly one more dotted component than its parent's |
| `TreeRows.RenderedRowsLabelled` | packages/table/src/body.ts:292-376 | every rendered data row carries the display sequence of its `localIndex`, sits at or below the current level, and every expanded-row panel spans all columns; from a well-formed prefix, every row's prefix is well formed for its depth (`SiblingsKeepTheirOrder` ties `localIndex` to the row's sibling position) |
| `TreeRows.LabelledRange` | packages/table/src/body.ts:292-376 | the labelling and depth facts over a prefix of siblings |
| `TreeRows.LabelledRow` | packages/table/src/body.ts:295-376 | the labelling and depth facts for one row and its subtree |
| `TreeRows.LevelRowsConcat` | packages/table/src/body.ts:319-376 | projecting the data rows of one level is additive over the pushed segments |
| `TreeRows.LevelRowsOfDeeper` | packages/table/src/body.ts:371-376 | rows pushed by the recursive call contribute nothing to the parent's level |
| `TreeRows.SiblingsKeepTheirOrder` | packages/table/src/body.ts:292-376 | however much is expanded, the data rows rendered at the current level are exactly one per given row, in order, the i-th being that row with the parent's prefix, the display sequence of position i, the level and local index i |
| `TreeRows.SiblingsRange` | packages/table/src/body.ts:292-376 | the same over a prefix of siblings |
| `TreeRows.SiblingsStep` | packages/table/src/body.ts:292-376 | rendering one more sibling adds exactly that sibling's labelled data row to the current level |
| `TreeRows.RowAtItsLevel` | packages/table/src/body.ts:319-376 | one row contributes exactly its own labelled data row to its level |
| `TreeRows.FlatListRendering` | packages/table/src/body.ts:292-334 | with no expanded panels or children, one data row per row, with its identity, prefix, sequence number and index |
| `TreeRows.FlatRange` | packages/table/src/body.ts:292-334 | the same over a prefix |
| `CellRules.EffectiveOverflow` | packages/table/src/body.ts:128 | a column's undefined/null `showOverflow` falls back to the table's; any other value wins |
| `CellRules.CellOverflow` | packages/table/src/body.ts:128-143 | title iff `'title'`; tooltip iff `true` or `'tooltip'`; the three modes exclude each other; `hasEllipsis` iff some mode is on; under virtual scroll a cell always has ellipsis, and only then is ellipsis forced without `'ellipsis'` |
| `CellRules.HandlersFor` | packages/table/src/body.ts:145-184 | every cell gets click and dblclick; mouseenter iff title/tooltip mode or tooltips enabled; mouseleave iff tooltip mode or tooltips enabled (so never without mouseenter); mousedown iff checkbox range or mouse config |
| `CellRules.IsOperateMouse` | packages/table/src/body.ts:79-83 | a resize in progress always counts as operating; before any scroll only a resize does |
| `CellRules.HoverSuppressionWindow` | packages/table/src/body.ts:79-83 | with no resize, hover is suppressed exactly within `delayHover` ms after the last scroll |
| `CellRules.CellMouseEnter` | packages/table/src/body.ts:145-159 | the handler does nothing while the mouse operates; otherwise it refreshes the title in title mode and raises the tooltip otherwise, never both |
| `CellRules.CellMouseLeave` | packages/table/src/body.ts:160-170 | the leave handler does nothing while the mouse operates; otherwise it ends the tooltip target |
| `CellRules.RowHover` | packages/table/src/body.ts:303-315 | without `highlightHoverRow` a row has no hover handlers; otherwise entering sets and leaving clears the hover row exactly when the mouse is not operating |
| `CellRules.HoverQuietAfterScroll` | packages/table/src/body.ts:79-83 | within `delayHover` ms of a scroll all four hover handlers (cell enter and leave, row enter and leave) do nothing; after the window, with no resize, each acts |
| `CellRules.FixedHiddenRaw` | packages/table/src/body.ts:127 | the raw fixed-column hiding rule before merging (its meaning, per surface, is `VisibleSurfaces`) |
| `CellRules.VisibleSurfaces` | packages/table/src/body.ts:127 | an unpinned column is drawn visibly only on the main surface; a pinned one on its own fixed surface, and on the main surface too exactly while the body does not overflow horizontally |
| `CellRules.SpanSourceOf` | packages/table/src/body.ts:186-201 | a non-empty merge list is consulted in preference to `spanMethod`; with neither, the cell is not merged |
| `CellRules.ResolvedSpan` | packages/table/src/body.ts:186-212 | no merging gives no span; a merge-list lookup gives its hit; `spanMethod` always gives a span, with missing fields (or a missing reply) defaulting to 1 |
| `CellRules.CellSpan` | packages/table/src/body.ts:186-212 | the cell is dropped iff its resolved span has a zero (falsy) rowspan or colspan; otherwise a rowspan (colspan) attribute is written iff the resolved span is above 1, with that value |
| `CellRules.PlanCell` | packages/table/src/body.ts:127-233 | dropped iff `CellSpan` drops it; a cell is a hidden fixed-column shadow iff the raw fixed rule says so and it spans nothing, so a merged cell is never hidden; the empty placeholder is drawn iff the table-wide overflow is truthy and the cell hidden; the overflow mode is `CellOverflow`'s |
| `CellRules.UnmergedCellIsPlain` | packages/table/src/body.ts:186-212 | a spanMethod that returns nothing and a merge list without an entry both render the cell as a plain 1x1 cell |
| `CellRules.SurfaceColumns` | packages/table/src/body.ts:515-523 | the main surface, and any surface when merging is configured, renders all columns; a fixed surface without merging renders only its fixed columns when overflow is set table-wide or columns are virtualised |
| `CellRules.EmptyContentFor` | packages/table/src/body.ts:524-534 | the empty slot wins; then a registered renderer's `renderEmpty` when `emptyRender` is on; then `emptyText`, else the localised default |
| `CellRules.RenderedRoles` | packages/table/src/body.ts:541-611 | the main surface renders all seven registered elements; a fixed surface has no x-space and no empty block |
| `CellRules.ElemKey` | packages/table/src/body.ts:487-495 | the `elemStore` key `(fixedType or main)-body-role` (its injectivity is `ElemKeysDistinct`) |
| `CellRules.RoleNameInjective` | packages/table/src/body.ts:489-495 | distinct roles get distinct key suffixes |
| `CellRules.ElemKeysDistinct` | packages/table/src/body.ts:487-495 | no two (surface, role) pairs share an element-registry key |
| `ScrollSync.Partners` | packages/table/src/body.ts:442-463 | the bodies a body keeps in vertical step: present, other than itself, and every other present body |
| `ScrollSync.VerticalTargets` | packages/table/src/body.ts:442-463 | the present bodies other than the source that get its vertical offset; a fixed body always reaches the main body; the main body writes any only on a vertical change with a fixed body present |
| `ScrollSync.HorizontalTargets` | packages/table/src/body.ts:449-456 | only header and footer follow horizontally |
| `ScrollSync.Detach` | packages/table/src/body.ts:389-397 | each target is detached and moved to the offset; nothing else changes |
| `ScrollSync.CopyLeft` | packages/table/src/body.ts:449-456 | each target takes the main body's horizontal offset; nothing else changes |
| `ScrollSync.AfterScroll` | packages/table/src/body.ts:442-463 | the elements after a scroll event: the same surfaces, with the scrolled body itself untouched (the convergence and frame lemmas state the rest) |
| `ScrollSync.NeedsDriftFix` | packages/table/src/body.ts:464-466 | the drift fix is scheduled under horizontal virtual scroll on a horizontal move with a header, within 80px of the right end (specification used by `ScrollEvent`'s `fixHeaderDrift`) |
| `ScrollSync.VerticalConvergence` | packages/table/src/body.ts:442-461 | after a fixed body scrolls, or the main body scrolls vertically, every present body stands at the source's vertical offset |
| `ScrollSync.HorizontalConvergence` | packages/table/src/body.ts:449-456 | after the main body scrolls horizontally, header and footer stand at its horizontal offset |
| `ScrollSync.ScrollFrame` | packages/table/src/body.ts:442-463 | a scroll event never touches its source element, leaves non-targets unchanged and the listeners of non-synced surfaces as they were |
| `ScrollSync.WrittenBodiesAreDetached` | packages/table/src/body.ts:389-397 | every body whose offset a scroll event writes is detached, so the browser's resulting scroll event finds no handler (no feedback loop) |
| `ScrollSync.TimersAfterScroll` | packages/table/src/body.ts:398-406 | a non-empty sync replaces the syncing body's own timer; an empty one leaves all timers alone |
| `ScrollSync.Reattach` | packages/table/src/body.ts:399-406 | a firing timer restores each target's `onscroll` from `_onscroll`; nothing else changes |
| `ScrollSync.ScrollKeepsConsistent` | packages/table/src/body.ts:388-463 | a scroll event preserves the invariant that every detached handler is restorable by a pending timer |
| `ScrollSync.FireKeepsConsistent` | packages/table/src/body.ts:399-406 | a firing timer preserves that invariant |
| `ScrollSync.QuiescentMeansAttached` | packages/table/src/body.ts:388-406 | with no timer pending, every body's `onscroll` holds exactly its `_onscroll` |
| `ScrollSync.TableScroll.constructor` | packages/table/src/body.ts:387 | all surfaces start unscrolled and unattached with no timer |
| `ScrollSync.TableScroll.Mount` | packages/table/src/body.ts:484-498 | mounting attaches the handler to both slots |
| `ScrollSync.TableScroll.Unmount` | packages/table/src/body.ts:500-504 | unmounting clears both slots |
| `ScrollSync.TableScroll.UserMoves` | packages/table/src/body.ts:432-433 | a user scroll changes only that surface's offsets |
| `ScrollSync.TableScroll.NativeScroll` | packages/table/src/body.ts:496-497 | the browser's scroll event runs `scrollEvent` iff the body's `onscroll` holds it, with every field and effect `ScrollEvent` states (offsets, change flags, last offsets and time, elements, timers); on a detached body nothing changes |
| `ScrollSync.TableScroll.Present` | packages/table/src/body.ts:421-431 | a surface reference is present exactly when the surface exists |
| `ScrollSync.TableScroll.Targets` | packages/table/src/body.ts:389-397 | the targets are the given non-null elements |
| `ScrollSync.TableScroll.SyncBodyScroll` | packages/table/src/body.ts:388-407 | detaches and moves the given targets and replaces this body's timer, only when there is a target |
| `ScrollSync.TableScroll.ForwardFromFixed` | packages/table/src/body.ts:442-447 | a fixed body's scroll moves the main body and the other fixed body |
| `ScrollSync.TableScroll.ForwardFromMain` | packages/table/src/body.ts:448-463 | the main body's scroll moves header/footer on a horizontal change and the fixed bodies on a vertical one; `checkScrolling` iff a fixed body exists |
| `ScrollSync.TableScroll.ScrollEvent` | packages/table/src/body.ts:415-482 | `isX`/`isY` compare with the last offsets, which (and the scroll time) are updated; the new elements and timers are `AfterScroll`/`TimersAfterScroll`; hover clearing, checkScrolling, the X/Y virtual-scroll triggers, the drift fix within 80px of the right end, the tooltip replacement and the emitted offsets as the source decides them; the invariant is kept |
| `ScrollSync.TableScroll.FireTimer` | packages/table/src/body.ts:399-406 | the timer re-attaches its targets and disappears; the invariant is kept |
| `ScrollSync.TableScroll.FixHeaderDrift` | packages/table/src/body.ts:466-473 | the header takes the main body's horizontal offset; nothing else changes |
| `GridState.KeepOut` | packages/grid/src/grid.ts:243 | an element stays iff it is not dropped; never longer than its input |
| `GridState.KeepIn` | packages/grid/src/grid.ts:235-241 | an element stays iff it is kept; never longer than its input |
| `GridState.KeepOutConcat` | packages/grid/src/grid.ts:759 | filtering distributes over concatenation, so the remaining rows keep their order |
| `GridState.KeepOutAgrees` | packages/grid/src/grid.ts:243 | filtering by `minus` equals filtering by the selection, since they agree on pending rows |
| `GridState.KeepOutNothing` | packages/grid/src/grid.ts:245 | filtering out nothing that occurs is the identity, so the minus-empty branch agrees with the general rule |
| `GridState.KeepOutEverything` | packages/grid/src/grid.ts:793-799 | filtering out everything leaves nothing |
| `GridState.NoDupConcat` | packages/grid/src/grid.ts:243-245 | disjoint duplicate-free lists concatenate duplicate-free |
| `GridState.KeepOutNoDup` | packages/grid/src/grid.ts:243 | filtering keeps a list duplicate-free |
| `GridState.ToggleMembership` | packages/grid/src/grid.ts:232-247 | after the toggle a row is pending iff it was pending or selected, but not both |
| `GridState.TogglePending` | packages/grid/src/grid.ts:232-247 | the reference for `triggerPendingEvent`: pending rows not selected keep their order, then selected rows not pending, in selection order (its meaning is `ToggleMembership`) |
| `GridState.ToggleTwice` | packages/grid/src/grid.ts:232-247 | toggling the same selection twice restores which rows are pending |
| `GridState.ToggleNoDup` | packages/grid/src/grid.ts:232-247 | the toggle never duplicates a row |
| `GridState.Activatable` | packages/grid/src/grid.ts:164-168 | a row is editable iff it is not pending and the activeMethod, if any, allows it |
| `GridState.MarkingLocksEditing` | packages/grid/src/grid.ts:164-168 | after a toggle a row is editable iff its pending and selected marks agree and the activeMethod allows it |
| `GridState.SeqStartIndex` | packages/grid/src/grid.ts:187-189 | page 1 starts at 0, and no page from 1 on starts below 0 |
| `GridState.PagesTile` | packages/grid/src/grid.ts:188 | consecutive pages number their rows contiguously |
| `GridState.PagesDisjoint` | packages/grid/src/grid.ts:188 | every row of an earlier page is numbered below every row of a later one |
| `GridState.ComputeTableProps` | packages/grid/src/grid.ts:170-195 | height or maxHeight becomes auto iff maximised; loading and data are overridden iff proxied; the sequence start index is set iff proxy seq/index and pager are both on, and is `SeqStartIndex`; editing is guarded iff edit config is set |
| `GridState.PrepareSave` | packages/grid/src/grid.ts:789-799 | the body's pending rows are the pending rows not inserted; its inserted rows are those not pending; removed and updated rows pass through |
| `GridState.SaveFiltersUnguarded` | packages/grid/src/grid.ts:793-799 | the two length guards change nothing: the body is exactly the two filters |
| `GridState.CancelledInsertsSendNothing` | packages/grid/src/grid.ts:789-802 | inserting rows and marking exactly those rows sends no save |
| `GridState.FirstSort` | packages/grid/src/grid.ts:684 | the single sort is the first of the sort list, when there is one |
| `GridState.Grid.constructor` | packages/grid/src/grid.ts:62-77 | the initial reactive state: not loading, not maximised, empty lists, page 1 of size 10, total 0 |
| `GridState.Grid.TriggerPendingEvent` | packages/grid/src/grid.ts:227-253 | with a selection, pending becomes `TogglePending` of it and the selection is cleared; without one, nothing changes and the warning shows iff messages are on; no duplicates appear |
| `GridState.Grid.InitPages` | packages/grid/src/grid.ts:212-225 | only a configured pager's truthy page and size overwrite the state |
| `GridState.Grid.CommitQuery` | packages/grid/src/grid.ts:673-746 | without a query method nothing changes; otherwise loading starts, reload returns to page 1 under a pager, init/reload clear pending rows and reset sorts (to the default) and filters (to the checked ones on init), and the request carries page, sort and filters as they now are |
| `GridState.Grid.FinishQuery` | packages/grid/src/grid.ts:724-741 | loading stops; the rows come from the reply (or are emptied), the total only from a truthy reply under a pager |
| `GridState.Grid.PageChangeEvent` | packages/grid/src/grid.ts:286-296 | page and size are taken; under a proxy with a query method the exact query request for that page (old sorts and filters) is issued and loading starts; sorts, filters and pending rows are unchanged |
| `GridState.Grid.SortChangeEvent` | packages/grid/src/grid.ts:298-313 | a remote sort is stored and, under a proxy, re-queried from page 1 with exactly that sort list and the old filters; loading starts iff a request issues |
| `GridState.Grid.FilterChangeEvent` | packages/grid/src/grid.ts:315-330 | a remote filter is stored and, under a proxy, re-queried from page 1 with exactly those filters and the old sorts; loading starts iff a request issues |
| `GridState.Grid.FormSubmitEvent` | packages/grid/src/grid.ts:332-346 | a form submit or reset reloads through the proxy: page 1 under a pager (the page is kept without one), nothing pending, default sort, no filters, loading, and exactly that reload request; nothing changes without a request |
| `GridState.Grid.BeginDelete` | packages/grid/src/grid.ts:747-785 | the selection is sent iff there is a delete method, a selection, and a confirmation when messages are on; the warning shows for an empty selection with messages on |
| `GridState.Grid.EndDelete` | packages/grid/src/grid.ts:756-774 | on success exactly the deleted rows leave the pending list, the rest keeping their order, and the grid re-queries unless `afterDelete` is set, with the `query` request for the current page, sorts and filters |
| `GridState.Grid.BeginSave` | packages/grid/src/grid.ts:786-832 | a valid record set is sent as `PrepareSave`'s body iff it carries a change; otherwise the "unchanged" notice shows when messages are on |
| `GridState.Grid.EndSave` | packages/grid/src/grid.ts:805-822 | on success nothing stays pending and the grid re-queries unless `afterSave` is set, with the `query` request for the current page, sorts and filters |
| `GridState.Grid.HandleZoom` | packages/grid/src/grid.ts:357-366 | afterwards the grid is maximised iff asked to be; the z-index is raised only on an actual change |
| `GridState.Grid.Maximize` | packages/grid/src/grid.ts:852-854 | maximised afterwards; the z-index is raised only when the grid was not maximised and its z-index is below the last allocated one |
| `GridState.Grid.Revert` | packages/grid/src/grid.ts:855-857 | not maximised afterwards; the z-index is raised only when the grid was maximised and its z-index is below the last allocated one |
| `GridState.Grid.Zoom` | packages/grid/src/grid.ts:843-848 | always toggles the maximised state, so the z-index is raised whenever it is below the last allocated one |
| `GridState.Grid.GetProxyInfo` | packages/grid/src/grid.ts:867-878 | present iff proxied; its single sort is the first of its sort list; it reports the rows, filters, pager and pending rows as they are |
| `Interceptor.LowerChar` | packages/v-x-e-table/src/interceptor.ts:6 | lower-casing leaves no capital and maps only `_` to `_` |
| `Interceptor.Lower` | packages/v-x-e-table/src/interceptor.ts:6 | lower-casing works character by character and keeps the length |
| `Interceptor.RemoveFirst` | packages/v-x-e-table/src/interceptor.ts:6 | a string without the character is unchanged; otherwise one character shorter |
| `Interceptor.FirstIndex` | packages/v-x-e-table/src/interceptor.ts:6 | the position of the first occurrence of a character |
| `Interceptor.RemoveFirstAtFirstIndex` | packages/v-x-e-table/src/interceptor.ts:6 | the character dropped is the first occurrence: the part before it and the part after it are kept |
| `Interceptor.ToType` | packages/v-x-e-table/src/interceptor.ts:5-7 | `toType`: `event.` prefixed, the first underscore dropped, lower-cased (its shape is `ToTypeShape`) |
| `Interceptor.LowerConcat` | packages/v-x-e-table/src/interceptor.ts:6 | lower-casing distributes over concatenation |
| `Interceptor.LowerRemoveFirst` | packages/v-x-e-table/src/interceptor.ts:6 | lower-casing and removing the first underscore commute |
| `Interceptor.PrefixWithoutUnderscore` | packages/v-x-e-table/src/interceptor.ts:6 | removing the first underscore passes over an underscore-free prefix |
| `Interceptor.ToTypeShape` | packages/v-x-e-table/src/interceptor.ts:5-7 | `toType(t)` is `"event."` followed by `t` lower-cased with its first underscore removed |
| `Interceptor.ToTypeCaseInsensitive` | packages/v-x-e-table/src/interceptor.ts:5-7 | type names equal up to letter case normalise to the same key |
| `Interceptor.SpellType` | packages/v-x-e-table/src/interceptor.ts:5-7 | a name whose lower-cased form has no underscore normalises to `"event."` followed by that lower-cased form |
| `Interceptor.ClearActivedKey` | packages/v-x-e-table/src/interceptor.ts:9 | `clearActived`, the first whitelisted name, normalises to `event.clearactived` |
| `Interceptor.ClearFilterKey` | packages/v-x-e-table/src/interceptor.ts:9 | `clearFilter`, the second whitelisted name, normalises to `event.clearfilter` |
| `Interceptor.ShowMenuKey` | packages/v-x-e-table/src/interceptor.ts:9 | `showMenu`, the third whitelisted name, normalises to `event.showmenu` |
| `Interceptor.KeydownKey` | packages/v-x-e-table/src/interceptor.ts:9 | `keydown`, the fourth whitelisted name, normalises to `event.keydown` |
| `Interceptor.ExportKey` | packages/v-x-e-table/src/interceptor.ts:9 | `export`, the fifth whitelisted name, normalises to `event.export` |
| `Interceptor.ImportKey` | packages/v-x-e-table/src/interceptor.ts:9 | `import`, the sixth whitelisted name, normalises to `event.import` |
| `Interceptor.EventTypesSpelledOut` | packages/v-x-e-table/src/interceptor.ts:9 | the whitelist `eventTypes`, normalised, is the six lower-case `event.` keys in order |
| `Interceptor.ClearActivedEitherCase` | packages/v-x-e-table/src/interceptor.ts:17-19 | `get('clearActived')` and `get('clearactived')` return the same list |
| `Interceptor.Lookup` | packages/v-x-e-table/src/interceptor.ts:17-19 | a type with no entry yields the empty list |
| `Interceptor.Without` | packages/v-x-e-table/src/interceptor.ts:36 | a callback stays iff it is not the removed one; never longer than before |
| `Interceptor.WithoutConcat` | packages/v-x-e-table/src/interceptor.ts:36 | removal distributes over concatenation, so the remaining callbacks keep their order |
| `Interceptor.WithoutAbsent` | packages/v-x-e-table/src/interceptor.ts:36 | removing an absent callback changes nothing |
| `Interceptor.AddStep` | packages/v-x-e-table/src/interceptor.ts:20-30 | the store after `add` (its meaning is `AddAppends` and `OtherTypesUntouched`) |
| `Interceptor.DeleteStep` | packages/v-x-e-table/src/interceptor.ts:31-41 | the store after `delete` (its meaning is `DeleteRemoves` and `OtherTypesUntouched`) |
| `Interceptor.MixinSteps` | packages/v-x-e-table/src/interceptor.ts:13-16 | the store after `mixin`: one `add` per entry in order (its meaning is `MixinConcat`) |
| `Interceptor.AddAppends` | packages/v-x-e-table/src/interceptor.ts:20-30 | `add` appends the callback to its type's list iff the callback is present and the type whitelisted; otherwise the store is unchanged |
| `Interceptor.OtherTypesUntouched` | packages/v-x-e-table/src/interceptor.ts:20-41 | `add` and `delete` leave every other type's list unchanged |
| `Interceptor.DeleteRemoves` | packages/v-x-e-table/src/interceptor.ts:31-41 | `delete(type)` leaves the type empty; `delete(type, cb)` leaves its list without `cb` |
| `Interceptor.AddThenDelete` | packages/v-x-e-table/src/interceptor.ts:20-41 | adding a new callback and deleting it restores its type's list |
| `Interceptor.StepsKeepWhitelist` | packages/v-x-e-table/src/interceptor.ts:20-41 | only whitelisted types ever have entries |
| `Interceptor.MixinConcat` | packages/v-x-e-table/src/interceptor.ts:13-16 | two mixins in a row are one mixin of both option lists |
| `Interceptor.Registry.constructor` | packages/v-x-e-table/src/interceptor.ts:10 | the store starts empty |
| `Interceptor.Registry.Get` | packages/v-x-e-table/src/interceptor.ts:17-19 | the list under the normalised type, or the empty list; the same as `Lookup` on the store |
| `Interceptor.Registry.Add` | packages/v-x-e-table/src/interceptor.ts:20-30 | the store becomes `AddStep` of the old one |
| `Interceptor.Registry.Delete` | packages/v-x-e-table/src/interceptor.ts:31-41 | the store becomes `DeleteStep` of the old one |
| `Interceptor.Registry.Mixin` | packages/v-x-e-table/src/interceptor.ts:13-16 | the loop of `add` calls leaves the store at `MixinSteps` of the old one, i.e. one `add` per entry in order |

## Left out

- Virtual DOM output: CSS classes, inline styles, `renderLine`'s left offset, `data-*` attributes and cell contents are not modelled. Only the decisions that choose between them are.
- Mouse events, the tooltip, validation and keyboard forwarding: the click, double-click and mousedown handlers are seen only as which handler exists (`HandlersFor`). The hover handlers are seen as what they decide (`CellMouseEnter`, `CellMouseLeave`, `RowHover`). What the table then does (`triggerCellClickEvent`, `triggerBodyTooltipEvent`, `handleTargetLeaveEvent`, `triggerHoverEvent`, the `cell-mouse*` dispatch) is not part of this model.
- The edit-status "dirty" flag and the validation error marking in `renderColumn`: they call into table methods that are not part of this model.
- `mergeBodyMethod` and `getRowid` are not part of this model. A merge-list lookup is its result for the cell, and a row is its identity.
- `TreeRows.CountTreeExpand`: a row without a children array is a row with no children. `countTreeExpand` reads `rowChildren.length` without the `rowChildren &&` guard that `renderRows` has, so the source throws on an expanded row with no children array. The model counts such a row as 1.
- `spanMethod` replies: a field that is present but falsy (`null` or `0`) is `Some(0)` in `CellRules.SpanReply`. The destructuring default applies only to `undefined`, and every falsy value drops the cell alike. Non-numeric replies are not modelled.
- `TreeRows.FlattenRow`: the virtual-scroll start index is added at every tree level, as the code does. The seq label of the cells themselves (`cell.ts`) is not part of this model.
- `ScrollSync.TableScroll`: the 100 ms delay of the re-attach timer, `nextTick` and the browser's scroll physics are environment steps. The header's and footer's own scroll handlers (`header.ts`, `footer.ts`) are not part of this model. The payload's `type`/`fixed` fields and the DOM event object are left out.
- `CellRules.IsOperateMouse`: `Date.now()` and `lastScrollTime` are parameters. The link to `ScrollEvent` is that method's `lastScrollTime == env.now`.
- Grid I/O: `commitProxy`'s ajax and Promise chains are split into a send half and a settle half whose inputs (reply, success, validation result, confirmation) are parameters. Not modelled: modal messages and their texts, i18n, `XEUtils.get` path lookups (`total`/`result`/`list` are what those lookups found), imports, exports, `insert` and the other toolbar codes. `VXETable.commands` and the z-index allocator are also left out; its answers are `HandleZoom`'s parameters.
- `GridState.Grid.FinishQuery`: a rejected query resolves, through `.catch(e => e)`, to the error object, which is truthy. Under a pager, or with `proxyProps.list` set, the path lookups on it find nothing, so it is passed in as a `Reply` with no total and no rows. Without a pager and without `proxyProps.list`, the source stores the error object itself as `tableData`. A list of row references cannot hold it, so the model does not cover that case.
- `GridState.Grid.CommitQuery`: the request's `page` is a snapshot `Page` value. The source hands the live `tablePage` object, so later changes to the pager (a settled total, a new page) are visible through the request object the proxy received. The model does not capture this aliasing.
- Grid events: the handlers do not model what they emit to listeners. These are `page-change` (grid.ts:292), `sort-change` (grid.ts:312), `filter-change` (grid.ts:329), `form-submit` (grid.ts:337), `form-reset` (grid.ts:345) and `zoom` (grid.ts:906, emitted by `triggerZoomEvent` after `Zoom`, with type `max` or `revert`). The page, sort, filter and form handlers (`PageChangeEvent`, `SortChangeEvent`, `FilterChangeEvent`, `FormSubmitEvent`) emit on every call, so without a proxy the model captures only their state updates. `form-submit-invalid`, `form-toggle-collapse` and `toolbar-button-click` are left out likewise.
- `GridState.Grid.CommitQuery`: `clearTableDefaultStatus`/`clearTableAllStatus` on the next tick act on the wrapped table and are not modelled. `formData` is not modelled.
- `handleRowClassName`: it returns the result of `Array.push`, a length, so it is not modelled as computing classes.
- `types/button.d.ts`: type declarations only.
- `Interceptor.LowerChar`: lower-casing covers ASCII letters only; JavaScript's `toLowerCase` also folds non-ASCII letters.
- `Interceptor.Registry.Get`: the source returns the live array from the store, so a caller that mutates it changes the store. The model returns a value and does not capture this aliasing.
- `Interceptor.Registry.Mixin`: the options object's enumeration order is given as a sequence of entries.
- Global keyboard and event registration, and the toolbar, pager and form slot wiring: UI plumbing.
