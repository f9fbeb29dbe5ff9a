/** The grid's own bookkeeping over the table it wraps (packages/grid/src/grid.ts): the
    rows marked for deletion ("pending"), the pager state, the maximised flag and the
    proxy's query/delete/save round trips. Rows are compared by identity, so a row is an
    opaque reference; sort and filter entries are opaque too. */
module GridState {
  import opened Options

  type RowRef = int
  type SortRef = int
  type FilterRef = int

  /** The elements of `s` that are not in `drop`, in their order in `s`. */
  function KeepOut(s: seq<RowRef>, drop: seq<RowRef>): (r: seq<RowRef>)
    ensures |r| <= |s|
    ensures forall x :: x in r <==> x in s && x !in drop
  {
    if s == [] then []
    else
      assert s == s[..|s|-1] + [s[|s|-1]];
      KeepOut(s[..|s|-1], drop) + (if s[|s|-1] in drop then [] else [s[|s|-1]])
  }

  /** The elements of `s` that are in `keep`, in their order in `s`. */
  function KeepIn(s: seq<RowRef>, keep: seq<RowRef>): (r: seq<RowRef>)
    ensures |r| <= |s|
    ensures forall x :: x in r <==> x in s && x in keep
  {
    if s == [] then []
    else
      assert s == s[..|s|-1] + [s[|s|-1]];
      KeepIn(s[..|s|-1], keep) + (if s[|s|-1] in keep then [s[|s|-1]] else [])
  }

  predicate NoDup(s: seq<RowRef>)
  {
    forall i, j :: 0 <= i < j < |s| ==> s[i] != s[j]
  }

  /** Filtering distributes over concatenation: it keeps the relative order of what stays. */
  lemma {:induction false} KeepOutConcat(a: seq<RowRef>, b: seq<RowRef>, drop: seq<RowRef>)
    ensures KeepOut(a + b, drop) == KeepOut(a, drop) + KeepOut(b, drop)
    decreases |b|
  {
    if b == [] {
      assert a + b == a;
    } else {
      var b' := b[..|b|-1];
      assert (a + b)[..|a + b|-1] == a + b';
      KeepOutConcat(a, b', drop);
    }
  }

  /** Filtering depends only on which elements of `s` are dropped. */
  lemma {:induction false} KeepOutAgrees(s: seq<RowRef>, a: seq<RowRef>, b: seq<RowRef>)
    requires forall x :: x in s ==> (x in a <==> x in b)
    ensures KeepOut(s, a) == KeepOut(s, b)
    decreases |s|
  {
    if s != [] {
      var init, last := s[..|s|-1], s[|s|-1];
      assert s == init + [last];
      KeepOutAgrees(init, a, b);
      assert last in s;
    }
  }

  /** Dropping nothing that occurs leaves the sequence as it was. */
  lemma {:induction false} KeepOutNothing(s: seq<RowRef>, drop: seq<RowRef>)
    requires forall x :: x in s ==> x !in drop
    ensures KeepOut(s, drop) == s
    decreases |s|
  {
    if s != [] {
      var init, last := s[..|s|-1], s[|s|-1];
      assert s == init + [last];
      KeepOutNothing(init, drop);
      assert last in s;
    }
  }

  /** Dropping everything that occurs leaves nothing. */
  lemma {:induction false} KeepOutEverything(s: seq<RowRef>, drop: seq<RowRef>)
    requires forall x :: x in s ==> x in drop
    ensures KeepOut(s, drop) == []
    decreases |s|
  {
    if s != [] {
      var init, last := s[..|s|-1], s[|s|-1];
      assert s == init + [last];
      KeepOutEverything(init, drop);
      assert last in s;
    }
  }

  lemma NoDupConcat(a: seq<RowRef>, b: seq<RowRef>)
    requires NoDup(a) && NoDup(b) && forall x :: x in a ==> x !in b
    ensures NoDup(a + b)
  {
    forall i, j | 0 <= i < j < |a + b|
      ensures (a + b)[i] != (a + b)[j]
    {
      if i < |a| && j >= |a| {
        assert (a + b)[i] in a && (a + b)[j] in b;
      }
    }
  }

  /** Filtering keeps a duplicate-free sequence duplicate-free. */
  lemma {:induction false} KeepOutNoDup(s: seq<RowRef>, drop: seq<RowRef>)
    requires NoDup(s)
    ensures NoDup(KeepOut(s, drop))
    decreases |s|
  {
    if s != [] {
      var init := s[..|s|-1];
      assert NoDup(init);
      KeepOutNoDup(init, drop);
      assert s[|s|-1] !in init;
      var tail := if s[|s|-1] in drop then [] else [s[|s|-1]];
      NoDupConcat(KeepOut(init, drop), tail);
    }
  }

  /** The "mark cancel" toggle as its meaning: pending rows that are selected are
      unmarked, the others stay in their order; then the selected rows that were not
      pending are appended in selection order. */
  function TogglePending(pending: seq<RowRef>, selected: seq<RowRef>): seq<RowRef>
  {
    KeepOut(pending, selected) + KeepOut(selected, pending)
  }

  /** A row is pending after the toggle exactly when it was pending or was selected,
      but not both. */
  lemma ToggleMembership(pending: seq<RowRef>, selected: seq<RowRef>, x: RowRef)
    ensures x in TogglePending(pending, selected) <==> ((x in pending) != (x in selected))
  {
  }

  /** Toggling twice with the same selection restores which rows are pending. */
  lemma ToggleTwice(pending: seq<RowRef>, selected: seq<RowRef>, x: RowRef)
    ensures x in TogglePending(TogglePending(pending, selected), selected) <==> x in pending
  {
    ToggleMembership(pending, selected, x);
    ToggleMembership(TogglePending(pending, selected), selected, x);
  }

  /** The toggle never duplicates a row when neither input has duplicates. */
  lemma ToggleNoDup(pending: seq<RowRef>, selected: seq<RowRef>)
    requires NoDup(pending) && NoDup(selected)
    ensures NoDup(TogglePending(pending, selected))
  {
    KeepOutNoDup(pending, selected);
    KeepOutNoDup(selected, pending);
    NoDupConcat(KeepOut(pending, selected), KeepOut(selected, pending));
  }

  /** handleActiveMethod: a row may enter edit mode only when it is not pending and the
      user's activeMethod (if any; `verdict` is its answer) allows it. */
  function Activatable(pending: seq<RowRef>, row: RowRef, verdict: Option<bool>): (ok: bool)
    ensures ok ==> row !in pending
    ensures ok <==> row !in pending && verdict != Some(false)
  {
    row !in pending && (verdict.None? || verdict.value)
  }

  /** After a toggle, a row is editable exactly when its marks cancel out and the
      activeMethod allows it. */
  lemma MarkingLocksEditing(pending: seq<RowRef>, selected: seq<RowRef>, row: RowRef, verdict: Option<bool>)
    ensures Activatable(TogglePending(pending, selected), row, verdict) <==>
      ((row in pending) == (row in selected)) && verdict != Some(false)
  {
    ToggleMembership(pending, selected, row);
  }

  /** The first sequence number on a page, minus one. */
  function SeqStartIndex(currentPage: int, pageSize: int): (start: int)
    ensures currentPage >= 1 && pageSize >= 0 ==> start >= 0
    ensures currentPage == 1 ==> start == 0
  {
    (currentPage - 1) * pageSize
  }

  /** Consecutive pages number their rows contiguously. */
  lemma PagesTile(currentPage: int, pageSize: int)
    ensures SeqStartIndex(currentPage + 1, pageSize) == SeqStartIndex(currentPage, pageSize) + pageSize
  {
  }

  /** Rows of an earlier page are numbered below every row of a later page. */
  lemma {:induction false} PagesDisjoint(p1: int, p2: int, pageSize: int)
    requires 1 <= p1 < p2 && pageSize >= 0
    ensures SeqStartIndex(p1, pageSize) + pageSize <= SeqStartIndex(p2, pageSize)
    decreases p2 - p1
  {
    PagesTile(p1, pageSize);
    if p1 + 1 < p2 {
      PagesDisjoint(p1 + 1, p2, pageSize);
    }
  }

  /** How the wrapped table's height is overridden while the grid is maximised. */
  datatype HeightOverride = NoOverride | MaxHeightAuto | HeightAuto

  /** The part of the wrapped table's props the grid decides. */
  datatype TableProps = TableProps(height: HeightOverride, loading: Option<bool>, data: Option<seq<RowRef>>,
                                   seqStartIndex: Option<int>, guardsEditing: bool)

  datatype GridOptions = GridOptions(hasMaxHeight: bool, proxyConfig: bool, proxySeqOrIndex: bool,
                                     pagerConfig: bool, editConfig: bool, loading: bool)

  /** computeTableProps, given the grid's options and its state. */
  function ComputeTableProps(opts: GridOptions, isZMax: bool, tableLoading: bool, tableData: seq<RowRef>,
                             currentPage: int, pageSize: int): (tp: TableProps)
    ensures tp.height == NoOverride <==> !isZMax
    ensures tp.height == MaxHeightAuto <==> isZMax && opts.hasMaxHeight
    ensures tp.loading.Some? <==> opts.proxyConfig
    ensures tp.loading.Some? ==> (tp.loading.value <==> opts.loading || tableLoading)
    ensures tp.data.Some? <==> opts.proxyConfig
    ensures tp.data.Some? ==> tp.data.value == tableData
    ensures tp.seqStartIndex.Some? <==> opts.proxyConfig && opts.proxySeqOrIndex && opts.pagerConfig
    ensures tp.seqStartIndex.Some? ==> tp.seqStartIndex.value == SeqStartIndex(currentPage, pageSize)
    ensures tp.guardsEditing <==> opts.editConfig
  {
    TableProps(
      if !isZMax then NoOverride else if opts.hasMaxHeight then MaxHeightAuto else HeightAuto,
      if opts.proxyConfig then Some(opts.loading || tableLoading) else None,
      if opts.proxyConfig then Some(tableData) else None,
      if opts.proxyConfig && opts.proxySeqOrIndex && opts.pagerConfig
      then Some(SeqStartIndex(currentPage, pageSize)) else None,
      opts.editConfig)
  }

  datatype Page = Page(currentPage: int, pageSize: int, total: int)

  datatype QueryCode = Init | Reload | Query

  /** The query parameters handed to the proxy's query method. */
  datatype QueryRequest = QueryRequest(code: QueryCode, page: Option<Page>, sort: Option<SortRef>,
                                       sorts: seq<SortRef>, filters: seq<FilterRef>)

  /** The settled reply of a query: `NoReply` for a falsy value; otherwise what the
      configured total and result paths found in it (None for a falsy lookup). */
  datatype QueryReply = NoReply | Reply(total: Option<int>, rows: Option<seq<RowRef>>)

  /** The record set sent to the proxy's save method. */
  datatype SaveBody = SaveBody(insertRecords: seq<RowRef>, removeRecords: seq<RowRef>,
                               updateRecords: seq<RowRef>, pendingRecords: seq<RowRef>)

  /** The save body: rows both inserted and marked pending cancel out of both lists. */
  function PrepareSave(pending: seq<RowRef>, insert: seq<RowRef>, remove: seq<RowRef>,
                       update: seq<RowRef>): (b: SaveBody)
    ensures b.removeRecords == remove && b.updateRecords == update
    ensures forall x :: x in b.pendingRecords <==> x in pending && x !in insert
    ensures forall x :: x in b.insertRecords <==> x in insert && x !in pending
  {
    SaveBody(if |pending| > 0 then KeepOut(insert, pending) else insert,
             remove, update,
             if |insert| > 0 then KeepOut(pending, insert) else pending)
  }

  /** The two guards on the filters change nothing: the body is always the two filters. */
  lemma SaveFiltersUnguarded(pending: seq<RowRef>, insert: seq<RowRef>, remove: seq<RowRef>, update: seq<RowRef>)
    ensures PrepareSave(pending, insert, remove, update).pendingRecords == KeepOut(pending, insert)
    ensures PrepareSave(pending, insert, remove, update).insertRecords == KeepOut(insert, pending)
  {
    if |insert| == 0 { KeepOutNothing(pending, insert); }
    if |pending| == 0 { KeepOutNothing(insert, pending); }
  }

  /** A save request goes out only when the body carries some change. */
  predicate SendsSave(b: SaveBody)
  {
    |b.insertRecords| > 0 || |b.removeRecords| > 0 || |b.updateRecords| > 0 || |b.pendingRecords| > 0
  }

  /** Inserting rows and marking exactly those rows pending is no change at all. */
  lemma CancelledInsertsSendNothing(rows: seq<RowRef>)
    ensures !SendsSave(PrepareSave(rows, rows, [], []))
  {
    SaveFiltersUnguarded(rows, rows, [], []);
    KeepOutEverything(rows, rows);
  }

  /** What the grid exposes of its proxy state. */
  datatype ProxyInfo = ProxyInfo(data: seq<RowRef>, filter: seq<FilterRef>, sort: Option<SortRef>,
                                 sorts: seq<SortRef>, pager: Page, pendingRecords: seq<RowRef>)

  function FirstSort(sorts: seq<SortRef>): (s: Option<SortRef>)
    ensures s.Some? <==> |sorts| > 0
    ensures s.Some? ==> s.value == sorts[0]
  {
    if |sorts| > 0 then Some(sorts[0]) else None
  }

  class Grid {
    const pagerConfig: bool
    const proxyConfig: bool
    /** The proxy's message option is not false. */
    const isMsg: bool
    const hasQuery: bool
    const hasDelete: bool
    const hasSave: bool
    const hasAfterDelete: bool
    const hasAfterSave: bool
    /** The table's default sort, already wrapped into a list. */
    const defaultSort: seq<SortRef>

    var tableLoading: bool
    var isZMax: bool
    var tZindex: int
    var tableData: seq<RowRef>
    var pendingRecords: seq<RowRef>
    var filterData: seq<FilterRef>
    var sortData: seq<SortRef>
    var currentPage: int
    var pageSize: int
    var total: int

    /** The initial reactive state. */
    constructor (pagerConfig: bool, proxyConfig: bool, isMsg: bool, hasQuery: bool, hasDelete: bool,
                 hasSave: bool, hasAfterDelete: bool, hasAfterSave: bool, defaultSort: seq<SortRef>)
      ensures this.pagerConfig == pagerConfig && this.proxyConfig == proxyConfig && this.isMsg == isMsg
      ensures this.hasQuery == hasQuery && this.hasDelete == hasDelete && this.hasSave == hasSave
      ensures this.hasAfterDelete == hasAfterDelete && this.hasAfterSave == hasAfterSave
      ensures this.defaultSort == defaultSort
      ensures !tableLoading && !isZMax && tZindex == 0
      ensures tableData == [] && pendingRecords == [] && filterData == [] && sortData == []
      ensures currentPage == 1 && pageSize == 10 && total == 0
    {
      this.pagerConfig, this.proxyConfig, this.isMsg := pagerConfig, proxyConfig, isMsg;
      this.hasQuery, this.hasDelete, this.hasSave := hasQuery, hasDelete, hasSave;
      this.hasAfterDelete, this.hasAfterSave := hasAfterDelete, hasAfterSave;
      this.defaultSort := defaultSort;
      tableLoading, isZMax, tZindex := false, false, 0;
      tableData, pendingRecords, filterData, sortData := [], [], [], [];
      currentPage, pageSize, total := 1, 10, 0;
    }

    /** triggerPendingEvent (also reached through commitProxy("mark_cancel")): toggle the
        selected rows' pending mark. Returns whether the checkbox selection is cleared and
        whether the "select one record" warning is shown. */
    method TriggerPendingEvent(selectRecords: seq<RowRef>) returns (clearSelection: bool, warned: bool)
      modifies this`pendingRecords
      ensures |selectRecords| > 0 ==>
        pendingRecords == TogglePending(old(pendingRecords), selectRecords) && clearSelection && !warned
      ensures |selectRecords| == 0 ==>
        pendingRecords == old(pendingRecords) && !clearSelection && warned == isMsg
      ensures NoDup(old(pendingRecords)) && NoDup(selectRecords) ==> NoDup(pendingRecords)
    {
      var pending := pendingRecords;
      if |selectRecords| > 0 {
        var plus: seq<RowRef> := [];
        var minus: seq<RowRef> := [];
        var i := 0;
        while i < |selectRecords|
          invariant 0 <= i <= |selectRecords|
          invariant plus == KeepOut(selectRecords[..i], pending)
          invariant minus == KeepIn(selectRecords[..i], pending)
        {
          assert selectRecords[..i + 1][..i] == selectRecords[..i];
          if selectRecords[i] in pending {
            minus := minus + [selectRecords[i]];
          } else {
            plus := plus + [selectRecords[i]];
          }
          i := i + 1;
        }
        assert selectRecords[..i] == selectRecords;
        if |minus| > 0 {
          pendingRecords := KeepOut(pending, minus) + plus;
          KeepOutAgrees(pending, minus, selectRecords);
        } else if |plus| > 0 {
          pendingRecords := pending + plus;
          KeepOutNothing(pending, selectRecords);
        }
        clearSelection, warned := true, false;
      } else {
        clearSelection, warned := false, isMsg;
      }
      if NoDup(pending) && NoDup(selectRecords) {
        ToggleNoDup(pending, selectRecords);
      }
    }

    /** initPages: a configured pager's truthy page number and size win over the defaults
        (0 stands for an unset option). */
    method InitPages(optCurrentPage: int, optPageSize: int)
      modifies this`currentPage, this`pageSize
      ensures currentPage == if pagerConfig && optCurrentPage != 0 then optCurrentPage else old(currentPage)
      ensures pageSize == if pagerConfig && optPageSize != 0 then optPageSize else old(pageSize)
    {
      if pagerConfig {
        if optCurrentPage != 0 {
          currentPage := optCurrentPage;
        }
        if optPageSize != 0 {
          pageSize := optPageSize;
        }
      }
    }

    /** commitProxy for "init", "reload" and "query": reset what the code resets, mark the
        grid loading and return the request handed to the proxy's query method
        (`checkedFilters` is the table's checked filters, read on init). */
    method CommitQuery(code: QueryCode, checkedFilters: seq<FilterRef>) returns (req: Option<QueryRequest>)
      modifies this`currentPage, this`sortData, this`filterData, this`pendingRecords, this`tableLoading
      ensures req.Some? <==> hasQuery
      ensures !hasQuery ==> unchanged(this`currentPage, this`sortData, this`filterData, this`pendingRecords, this`tableLoading)
      ensures hasQuery ==> tableLoading
      ensures hasQuery ==> currentPage == if pagerConfig && code == Reload then 1 else old(currentPage)
      ensures hasQuery ==> pendingRecords == if code == Query then old(pendingRecords) else []
      ensures hasQuery ==> sortData == if code == Query then old(sortData) else defaultSort
      ensures hasQuery ==> filterData == match code
                                         case Init => checkedFilters
                                         case Reload => []
                                         case Query => old(filterData)
      ensures req.Some? ==> req.value == QueryRequest(code, if pagerConfig then Some(Page(currentPage, pageSize, total)) else None,
                                                      FirstSort(sortData), sortData, filterData)
    {
      if !hasQuery {
        return None;
      }
      if pagerConfig && code == Reload {
        currentPage := 1;
      }
      if code != Query {
        sortData := defaultSort;
        filterData := if code == Init then checkedFilters else [];
        pendingRecords := [];
      }
      tableLoading := true;
      req := Some(QueryRequest(code, if pagerConfig then Some(Page(currentPage, pageSize, total)) else None,
                               FirstSort(sortData), sortData, filterData));
    }

    /** The query settles: the grid stops loading and takes the rows (and, with a pager,
        the total) from the reply; a falsy reply empties the rows. */
    method FinishQuery(reply: QueryReply)
      modifies this`tableLoading, this`tableData, this`total
      ensures !tableLoading
      ensures tableData == if reply.Reply? then reply.rows.GetOr([]) else []
      ensures total == if reply.Reply? && pagerConfig then reply.total.GetOr(0) else old(total)
    {
      tableLoading := false;
      if reply.Reply? {
        if pagerConfig {
          total := reply.total.GetOr(0);
        }
        tableData := reply.rows.GetOr([]);
      } else {
        tableData := [];
      }
    }

    /** pageChangeEvent: take the pager's page and size, then query through the proxy. */
    method PageChangeEvent(newPage: int, newSize: int) returns (req: Option<QueryRequest>)
      modifies this`currentPage, this`pageSize, this`sortData, this`filterData, this`pendingRecords, this`tableLoading
      ensures currentPage == newPage && pageSize == newSize
      ensures req.Some? <==> proxyConfig && hasQuery
      ensures req.Some? ==> req.value == QueryRequest(Query, if pagerConfig then Some(Page(newPage, newSize, total)) else None,
                                                      FirstSort(old(sortData)), old(sortData), old(filterData))
      ensures tableLoading == (req.Some? || old(tableLoading))
      ensures pendingRecords == old(pendingRecords) && sortData == old(sortData) && filterData == old(filterData)
    {
      currentPage := newPage;
      pageSize := newSize;
      req := None;
      if proxyConfig {
        req := CommitQuery(Query, []);
      }
    }

    /** sortChangeEvent: a remote sort is kept and, under the proxy, re-queried from page 1. */
    method SortChangeEvent(remote: bool, sortList: seq<SortRef>) returns (req: Option<QueryRequest>)
      modifies this`currentPage, this`sortData, this`filterData, this`pendingRecords, this`tableLoading
      ensures sortData == if remote then sortList else old(sortData)
      ensures currentPage == if remote && proxyConfig then 1 else old(currentPage)
      ensures req.Some? <==> remote && proxyConfig && hasQuery
      ensures req.Some? ==> req.value == QueryRequest(Query, if pagerConfig then Some(Page(1, pageSize, total)) else None,
                                                      FirstSort(sortList), sortList, old(filterData))
      ensures tableLoading == (req.Some? || old(tableLoading))
      ensures pendingRecords == old(pendingRecords) && filterData == old(filterData)
    {
      req := None;
      if remote {
        sortData := sortList;
        if proxyConfig {
          currentPage := 1;
          req := CommitQuery(Query, []);
        }
      }
    }

    /** filterChangeEvent: a remote filter is kept and, under the proxy, re-queried from page 1. */
    method FilterChangeEvent(remote: bool, filters: seq<FilterRef>) returns (req: Option<QueryRequest>)
      modifies this`currentPage, this`sortData, this`filterData, this`pendingRecords, this`tableLoading
      ensures filterData == if remote then filters else old(filterData)
      ensures currentPage == if remote && proxyConfig then 1 else old(currentPage)
      ensures req.Some? <==> remote && proxyConfig && hasQuery
      ensures req.Some? ==> req.value == QueryRequest(Query, if pagerConfig then Some(Page(1, pageSize, total)) else None,
                                                      FirstSort(old(sortData)), old(sortData), filters)
      ensures tableLoading == (req.Some? || old(tableLoading))
      ensures pendingRecords == old(pendingRecords) && sortData == old(sortData)
    {
      req := None;
      if remote {
        filterData := filters;
        if proxyConfig {
          currentPage := 1;
          req := CommitQuery(Query, []);
        }
      }
    }

    /** submitEvent / resetEvent of the form: reload through the proxy. */
    method FormSubmitEvent() returns (req: Option<QueryRequest>)
      modifies this`currentPage, this`sortData, this`filterData, this`pendingRecords, this`tableLoading
      ensures req.Some? <==> proxyConfig && hasQuery
      ensures req.Some? ==> pendingRecords == [] && filterData == [] && sortData == defaultSort && tableLoading
      ensures req.Some? ==> currentPage == if pagerConfig then 1 else old(currentPage)
      ensures req.Some? ==> req.value == QueryRequest(Reload, if pagerConfig then Some(Page(1, pageSize, total)) else None,
                                                      FirstSort(defaultSort), defaultSort, [])
      ensures req.None? ==> unchanged(this`currentPage, this`sortData, this`filterData, this`pendingRecords, this`tableLoading)
    {
      req := None;
      if proxyConfig {
        req := CommitQuery(Reload, []);
      }
    }

    /** commitProxy("delete") up to sending: with a delete method and a non-empty
        selection (confirmed when messages are on), mark loading and send the selection. */
    method BeginDelete(selectRecords: seq<RowRef>, confirmed: bool) returns (sent: Option<seq<RowRef>>, warned: bool)
      modifies this`tableLoading
      ensures sent.Some? <==> hasDelete && |selectRecords| > 0 && (!isMsg || confirmed)
      ensures sent.Some? ==> sent.value == selectRecords && tableLoading
      ensures sent.None? ==> tableLoading == old(tableLoading)
      ensures warned <==> hasDelete && |selectRecords| == 0 && isMsg
    {
      sent, warned := None, false;
      if hasDelete {
        if |selectRecords| > 0 {
          if !isMsg || confirmed {
            tableLoading := true;
            sent := Some(selectRecords);
          }
        } else {
          warned := isMsg;
        }
      }
    }

    /** The delete settles: on success the deleted rows leave the pending list, the rest
        keeping their order, and the grid re-queries unless afterDelete is configured. */
    method EndDelete(removeRecords: seq<RowRef>, success: bool) returns (req: Option<QueryRequest>)
      modifies this`currentPage, this`sortData, this`filterData, this`pendingRecords, this`tableLoading
      ensures pendingRecords == if success then KeepOut(old(pendingRecords), removeRecords) else old(pendingRecords)
      ensures req.Some? <==> success && !hasAfterDelete && hasQuery
      ensures tableLoading <==> req.Some?
      ensures currentPage == old(currentPage) && sortData == old(sortData) && filterData == old(filterData)
      ensures req.Some? ==> req.value == QueryRequest(Query, if pagerConfig then Some(Page(currentPage, pageSize, total)) else None,
                                                      FirstSort(sortData), sortData, filterData)
    {
      tableLoading := false;
      req := None;
      if success {
        pendingRecords := KeepOut(pendingRecords, removeRecords);
        if !hasAfterDelete {
          req := CommitQuery(Query, []);
        }
      }
    }

    /** commitProxy("save") up to sending: with a save method and a valid record set, the
        body is sent only when it carries a change; otherwise the "unchanged" notice shows. */
    method BeginSave(insert: seq<RowRef>, remove: seq<RowRef>, update: seq<RowRef>, valid: bool)
      returns (sent: Option<SaveBody>, unchangedNotice: bool)
      modifies this`tableLoading
      ensures sent.Some? <==> hasSave && valid && SendsSave(PrepareSave(pendingRecords, insert, remove, update))
      ensures sent.Some? ==> sent.value == PrepareSave(pendingRecords, insert, remove, update) && tableLoading
      ensures sent.None? ==> tableLoading == old(tableLoading)
      ensures unchangedNotice <==> hasSave && valid && isMsg && !SendsSave(PrepareSave(pendingRecords, insert, remove, update))
    {
      sent, unchangedNotice := None, false;
      if hasSave {
        var body := PrepareSave(pendingRecords, insert, remove, update);
        if valid {
          if SendsSave(body) {
            tableLoading := true;
            sent := Some(body);
          } else {
            unchangedNotice := isMsg;
          }
        }
      }
    }

    /** The save settles: on success nothing stays pending and the grid re-queries unless
        afterSave is configured. */
    method EndSave(success: bool) returns (req: Option<QueryRequest>)
      modifies this`currentPage, this`sortData, this`filterData, this`pendingRecords, this`tableLoading
      ensures pendingRecords == if success then [] else old(pendingRecords)
      ensures req.Some? <==> success && !hasAfterSave && hasQuery
      ensures tableLoading <==> req.Some?
      ensures currentPage == old(currentPage) && sortData == old(sortData) && filterData == old(filterData)
      ensures req.Some? ==> req.value == QueryRequest(Query, if pagerConfig then Some(Page(currentPage, pageSize, total)) else None,
                                                      FirstSort(sortData), sortData, filterData)
    {
      tableLoading := false;
      req := None;
      if success {
        pendingRecords := [];
        if !hasAfterSave {
          req := CommitQuery(Query, []);
        }
      }
    }

    /** handleZoom: afterwards the grid is maximised exactly when `isMax` asked for it;
        on a change the z-index is raised to `nextZIndex` when below `lastZIndex` (the
        global z-index allocator's answers). */
    method HandleZoom(isMax: bool, lastZIndex: int, nextZIndex: int) returns (maximised: bool)
      modifies this`isZMax, this`tZindex
      ensures isZMax == isMax && maximised == isZMax
      ensures tZindex == if isZMax != old(isZMax) && old(tZindex) < lastZIndex then nextZIndex else old(tZindex)
    {
      if (if isMax then !isZMax else isZMax) {
        isZMax := !isZMax;
        if tZindex < lastZIndex {
          tZindex := nextZIndex;
        }
      }
      maximised := isZMax;
    }

    method Maximize(lastZIndex: int, nextZIndex: int) returns (maximised: bool)
      modifies this`isZMax, this`tZindex
      ensures isZMax && maximised
      ensures tZindex == if !old(isZMax) && old(tZindex) < lastZIndex then nextZIndex else old(tZindex)
    {
      maximised := HandleZoom(true, lastZIndex, nextZIndex);
    }

    method Revert(lastZIndex: int, nextZIndex: int) returns (maximised: bool)
      modifies this`isZMax, this`tZindex
      ensures !isZMax && !maximised
      ensures tZindex == if old(isZMax) && old(tZindex) < lastZIndex then nextZIndex else old(tZindex)
    {
      maximised := HandleZoom(false, lastZIndex, nextZIndex);
    }

    /** zoom always toggles the maximised state. */
    method Zoom(lastZIndex: int, nextZIndex: int) returns (maximised: bool)
      modifies this`isZMax, this`tZindex
      ensures isZMax == !old(isZMax) && maximised == isZMax
      ensures tZindex == if old(tZindex) < lastZIndex then nextZIndex else old(tZindex)
    {
      if isZMax {
        maximised := Revert(lastZIndex, nextZIndex);
      } else {
        maximised := Maximize(lastZIndex, nextZIndex);
      }
    }

    /** getProxyInfo: the proxy state, only when a proxy is configured. */
    function GetProxyInfo(): (info: Option<ProxyInfo>)
      reads this
      ensures info.Some? <==> proxyConfig
      ensures info.Some? ==> info.value.sort == FirstSort(info.value.sorts) && info.value.sorts == sortData
      ensures info.Some? ==> info.value.pendingRecords == pendingRecords && info.value.data == tableData
      ensures info.Some? ==> info.value.pager == Page(currentPage, pageSize, total) && info.value.filter == filterData
    {
      if proxyConfig
      then Some(ProxyInfo(tableData, filterData, FirstSort(sortData), sortData, Page(currentPage, pageSize, total), pendingRecords))
      else None
    }
  }
}
