/**
 * The script's flow from a loaded sheet and the two sidebar selections to
 * everything the page shows: the error page when the sheet could not be
 * read, the top of the page alone when the per-status tabs cannot be built,
 * or the whole dashboard.
 */
module Dashboard {
  import opened Wrappers
  import opened Seqs
  import opened Categories
  import opened Records
  import opened Metrics

  /** What the page shows before the per-status tabs: the sidebar, the headline and the charts. */
  datatype Top = Top(
    statusOptions: seq<string>,
    vendorOptions: Option<seq<string>>,
    selectedStatus: string,
    selectedVendor: string,
    filtered: seq<Record>,
    headline: Headline,
    categoria: seq<Category>,
    categoryCounts: map<Category, nat>)

  /** What the page shows from the per-status tabs on. */
  datatype Details = Details(
    tabs: seq<Tab>,
    progress: real,
    summary: seq<SummaryRow>,
    totalRecords: nat,
    notice: Option<Notice>)

  /**
   * The page: the error message when loading failed; the top of the page
   * when no row is left to make a tab of, since Streamlit refuses an empty
   * list of tab labels and the script stops there; the whole dashboard otherwise.
   */
  datatype Page = LoadFailed | TabsRaised(top: Top) | Shown(top: Top, details: Details)

  /**
   * One run of the script. `loaded` is the outcome of reading the workbook
   * (None when the read raised); `statusChoice` and `vendorChoice` are what
   * the two sidebar selectors return. The vendor choice is ignored when no
   * vendor selector is shown.
   */
  method Render(loaded: Option<Sheet>, statusChoice: string, vendorChoice: string) returns (page: Page)
    ensures page.LoadFailed? <==> loaded.None?
    ensures page.TabsRaised? <==>
      (loaded.Some? && Where(loaded.value.rows, Selection(statusChoice, SelectedVendor(loaded.value, vendorChoice))) == [])
    ensures !page.LoadFailed? ==>
      var sheet, t := loaded.value, page.top;
      && t.statusOptions == StatusOptions(sheet.rows)
      && t.vendorOptions == VendorOptions(sheet)
      && t.selectedStatus == statusChoice
      && t.selectedVendor == SelectedVendor(sheet, vendorChoice)
      && t.filtered == Where(sheet.rows, Selection(t.selectedStatus, t.selectedVendor))
      && t.headline == HeadlineMetrics(t.filtered)
      && |t.categoria| == |t.filtered|
      && (forall i :: 0 <= i < |t.filtered| ==> t.categoria[i] == CategorizeStatus(t.filtered[i].status))
      && t.categoryCounts == ValueCounts(t.categoria)
    ensures page.Shown? ==>
      var sheet, t, d := loaded.value, page.top, page.details;
      && |d.tabs| == |Distinct(Statuses(t.filtered))|
      && (forall i :: 0 <= i < |d.tabs| ==> d.tabs[i] == TabFor(t.filtered, Distinct(Statuses(t.filtered))[i]))
      && SumCounts(d.tabs) == |t.filtered|
      && d.progress == Progress(sheet.rows)
      && d.summary == Summary(sheet.rows)
      && |sheet.rows| > 0
      && (forall i :: 0 <= i < |d.summary| ==> d.summary[i].percent.Some?)
      && d.totalRecords == |sheet.rows|
      && d.notice == FilterNotice(t.selectedStatus, t.selectedVendor, t.filtered, sheet.rows)
      && (d.notice.Some? <==> t.selectedStatus != ALL || t.selectedVendor != ALL)
      && (d.notice.None? ==> t.filtered == sheet.rows)
  {
    if loaded.None? {
      return LoadFailed;
    }
    var sheet := loaded.value;
    var statusOptions := StatusOptions(sheet.rows);
    var vendorOptions := VendorOptions(sheet);
    var selectedVendor := SelectedVendor(sheet, vendorChoice);
    var filtered := ApplyFilters(sheet.rows, statusChoice, selectedVendor);
    var headline := HeadlineMetrics(filtered);
    var categoria := AddCategoryColumn(filtered);
    var top := Top(statusOptions, vendorOptions, statusChoice, selectedVendor, filtered, headline,
      categoria, ValueCounts(categoria));
    var statusList := Distinct(Statuses(filtered));
    assert statusList == [] <==> filtered == [] by {
      if filtered != [] {
        assert Statuses(filtered)[0] in statusList;
      }
    }
    if statusList == [] {
      return TabsRaised(top);
    }
    var tabs := DetailTabs(filtered);
    assert |sheet.rows| > 0 by { WhereLength(sheet.rows, Selection(statusChoice, selectedVendor)); }
    SummaryDefined(sheet.rows);
    var notice := FilterNotice(statusChoice, selectedVendor, filtered, sheet.rows);
    FilterNoticeSpec(sheet.rows, statusChoice, selectedVendor);
    page := Shown(top, Details(tabs, Progress(sheet.rows), Summary(sheet.rows), |sheet.rows|, notice));
  }
}
