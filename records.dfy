/**
 * The invoice sheet, the sidebar's option lists and the status/vendor filter
 * block of the dashboard script.
 */
module Records {
  import opened Wrappers
  import opened Seqs

  /** One spreadsheet row: its "Status" and its optional "Proveedor" cell. */
  datatype Record = Record(status: string, vendor: Option<string>)

  /** The loaded sheet; `hasVendorColumn` says whether a "Proveedor" column exists at all. */
  datatype Sheet = Sheet(rows: seq<Record>, hasVendorColumn: bool)

  /** The sentinel option that means "do not filter". */
  const ALL: string := "Todos"

  /** The "Status" column. */
  function Statuses(rows: seq<Record>): (col: seq<string>)
    ensures |col| == |rows|
    ensures forall i :: 0 <= i < |rows| ==> col[i] == rows[i].status
  {
    seq(|rows|, i requires 0 <= i < |rows| => rows[i].status)
  }

  /** `df['Proveedor'].dropna()`: the vendors of the rows that have one, in row order. */
  function PresentVendors(rows: seq<Record>): (vs: seq<string>)
    ensures forall v :: v in vs <==> Some(v) in VendorCells(rows)
  {
    if rows == [] then []
    else
      var rest := PresentVendors(rows[1..]);
      assert VendorCells(rows) == [rows[0].vendor] + VendorCells(rows[1..]);
      match rows[0].vendor
      case Some(v) => [v] + rest
      case None => rest
  }

  /** The "Proveedor" column, missing cells included. */
  function VendorCells(rows: seq<Record>): (col: seq<Option<string>>)
    ensures |col| == |rows|
    ensures forall i :: 0 <= i < |rows| ==> col[i] == rows[i].vendor
  {
    seq(|rows|, i requires 0 <= i < |rows| => rows[i].vendor)
  }

  /** The status selector's options: the sentinel, then each status once in order of first appearance. */
  function StatusOptions(rows: seq<Record>): seq<string>
  {
    [ALL] + Distinct(Statuses(rows))
  }

  /**
   * The vendor selector's options, or None when no selector is shown because
   * the sheet has no "Proveedor" column or that column has no value.
   */
  function VendorOptions(sheet: Sheet): Option<seq<string>>
  {
    if !sheet.hasVendorColumn then None
    else
      var vendors := Distinct(PresentVendors(sheet.rows));
      if |vendors| > 0 then Some([ALL] + vendors) else None
  }

  /** The vendor selection in force: the user's choice when a selector is shown, the sentinel otherwise. */
  function SelectedVendor(sheet: Sheet, choice: string): string
  {
    if VendorOptions(sheet).Some? then choice else ALL
  }

  lemma StatusOptionsSpec(rows: seq<Record>)
    ensures var opts := StatusOptions(rows);
      && |opts| >= 1 && opts[0] == ALL
      && NoDuplicates(opts[1..])
      && (forall s :: s in opts[1..] <==> exists r :: r in rows && r.status == s)
      && (forall i, j :: 1 <= i < j < |opts| ==>
            FirstIndex(Statuses(rows), opts[i]) < FirstIndex(Statuses(rows), opts[j]))
  {
    var opts := StatusOptions(rows);
    var col := Statuses(rows);
    assert opts[1..] == Distinct(col);
    DistinctFirstAppearance(col);
    forall s
      ensures s in col <==> exists r :: r in rows && r.status == s
    {
      if s in col {
        var i :| 0 <= i < |col| && col[i] == s;
        assert rows[i] in rows;
      }
    }
  }

  /** The vendor selector falls back to the sentinel exactly when there is no vendor to choose. */
  lemma VendorOptionsSpec(sheet: Sheet, choice: string)
    ensures VendorOptions(sheet).None? <==>
      !sheet.hasVendorColumn || forall r :: r in sheet.rows ==> r.vendor.None?
    ensures VendorOptions(sheet).None? ==> SelectedVendor(sheet, choice) == ALL
    ensures VendorOptions(sheet).Some? ==>
      var opts := VendorOptions(sheet).value;
      && opts[0] == ALL
      && NoDuplicates(opts[1..])
      && forall v :: v in opts[1..] <==> exists r :: r in sheet.rows && r.vendor == Some(v)
  {
    var rows := sheet.rows;
    var cells := VendorCells(rows);
    forall v
      ensures Some(v) in cells <==> exists r :: r in rows && r.vendor == Some(v)
    {
      if Some(v) in cells {
        var i :| 0 <= i < |cells| && cells[i] == Some(v);
        assert rows[i] in rows;
      }
    }
    if sheet.hasVendorColumn && exists r :: r in rows && r.vendor.Some? {
      var r :| r in rows && r.vendor.Some?;
      assert r.vendor.value in PresentVendors(rows);
    }
    if VendorOptions(sheet).Some? {
      var opts := VendorOptions(sheet).value;
      assert opts[1..] == Distinct(PresentVendors(rows));
      assert Some(opts[1]) in cells;
    }
  }

  /** Keeps the rows whose status is exactly `status`. */
  function HasStatus(status: string): Record -> bool
  {
    (r: Record) => r.status == status
  }

  /** Keeps the rows whose vendor is exactly `vendor`; a missing vendor never matches. */
  function HasVendor(vendor: string): Record -> bool
  {
    (r: Record) => r.vendor == Some(vendor)
  }

  /** The two sidebar filters combined: each is either the sentinel or an exact match, and both must hold. */
  function Selection(status: string, vendor: string): Record -> bool
  {
    (r: Record) => (status == ALL || r.status == status) && (vendor == ALL || r.vendor == Some(vendor))
  }

  /**
   * The filter block: start from a copy of the sheet and narrow it first by
   * status, then by vendor, each only when its selection is not the sentinel.
   */
  method ApplyFilters(rows: seq<Record>, status: string, vendor: string) returns (filtered: seq<Record>)
    ensures filtered == Where(rows, Selection(status, vendor))
  {
    filtered := rows;
    if status != ALL {
      filtered := Where(filtered, HasStatus(status));
    }
    if vendor != ALL {
      filtered := Where(filtered, HasVendor(vendor));
    }
    if status != ALL && vendor != ALL {
      WhereWhere(rows, HasStatus(status), HasVendor(vendor), Selection(status, vendor));
    } else if status != ALL {
      WhereExt(rows, HasStatus(status), Selection(status, vendor));
    } else if vendor != ALL {
      WhereExt(rows, HasVendor(vendor), Selection(status, vendor));
    } else {
      WhereAll(rows, Selection(status, vendor));
    }
  }

  /**
   * What the filters keep: the unfiltered sheet when both selections are the
   * sentinel; otherwise exactly the matching rows, each as often as in the
   * sheet, in sheet order.
   */
  lemma SelectionSpec(rows: seq<Record>, status: string, vendor: string)
    ensures status == ALL && vendor == ALL ==> Where(rows, Selection(status, vendor)) == rows
    ensures forall r :: r in Where(rows, Selection(status, vendor)) <==>
      r in rows && (status == ALL || r.status == status) && (vendor == ALL || r.vendor == Some(vendor))
    ensures forall r ::
      multiset(Where(rows, Selection(status, vendor)))[r] == (if Selection(status, vendor)(r) then multiset(rows)[r] else 0)
    ensures forall front, back :: rows == front + back ==>
      Where(rows, Selection(status, vendor)) ==
        Where(front, Selection(status, vendor)) + Where(back, Selection(status, vendor))
  {
    var p := Selection(status, vendor);
    WhereSpec(rows, p);
    if status == ALL && vendor == ALL {
      WhereAll(rows, p);
    }
    forall front, back | rows == front + back
      ensures Where(rows, p) == Where(front, p) + Where(back, p)
    {
      WhereAppend(front, back, p);
    }
  }

  /** The sidebar warning "showing `shown` of `total` records (filtered)". */
  datatype Notice = Notice(shown: nat, total: nat)

  function FilterNotice(status: string, vendor: string, filtered: seq<Record>, rows: seq<Record>): Option<Notice>
  {
    if status != ALL || vendor != ALL then Some(Notice(|filtered|, |rows|)) else None
  }

  /** The warning appears exactly when a filter is active; without it the view shows the whole sheet. */
  lemma FilterNoticeSpec(rows: seq<Record>, status: string, vendor: string)
    ensures var filtered := Where(rows, Selection(status, vendor));
      var notice := FilterNotice(status, vendor, filtered, rows);
      && (notice.Some? <==> status != ALL || vendor != ALL)
      && (notice.None? ==> filtered == rows)
      && (notice.Some? ==> notice.value.shown <= notice.value.total == |rows|)
  {
    SelectionSpec(rows, status, vendor);
    WhereSpec(rows, Selection(status, vendor));
  }
}
