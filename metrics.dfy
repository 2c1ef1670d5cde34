/**
 * What the dashboard computes from the rows: the four headline metrics over
 * the filtered rows, the "Categoria" column and its counts, the per-status
 * tabs, the overall progress and the numeric summary over the whole sheet.
 */
module Metrics {
  import opened Wrappers
  import opened Seqs
  import opened Text
  import opened Categories
  import opened Records

  /** The "Completadas" mask: the status is exactly one of the two finished statuses. */
  predicate IsDoneRow(r: Record)
  {
    IsDone(r.status)
  }

  /** `df['Status'].str.contains(marker, na=False)` for a plain marker. */
  function StatusContains(marker: string): Record -> bool
  {
    (r: Record) => Contains(r.status, marker)
  }

  /** `df['Status'].str.contains('a|b')`: the status holds either marker. */
  function StatusContainsEither(a: string, b: string): Record -> bool
  {
    (r: Record) => Contains(r.status, a) || Contains(r.status, b)
  }

  /** The status holds both markers. */
  function StatusContainsBoth(a: string, b: string): Record -> bool
  {
    (r: Record) => Contains(r.status, a) && Contains(r.status, b)
  }

  /** The row's status falls into category `c`. */
  function InCategory(c: Category): Record -> bool
  {
    (r: Record) => CategorizeStatus(r.status) == c
  }

  /** The row's status falls into category `c` or category `d`. */
  function InCategories(c: Category, d: Category): Record -> bool
  {
    (r: Record) => CategorizeStatus(r.status) == c || CategorizeStatus(r.status) == d
  }

  /**
   * A headline percentage, guarded: `count / total * 100`, or 0 when there
   * are no rows; a count within the total gives a value in [0, 100].
   */
  function Percent(count: nat, total: nat): (p: real)
    ensures total == 0 ==> p == 0.0
    ensures total > 0 ==> p * total as real == count as real * 100.0
    ensures count <= total ==> 0.0 <= p <= 100.0
  {
    if total > 0 then
      var q := count as real / total as real;
      assert q * total as real == count as real;
      assert count <= total ==> q <= 1.0;
      q * 100.0
    else 0.0
  }

  /** The four headline metrics: total, completed, pending and erroneous invoices with their percentages. */
  datatype Headline = Headline(
    total: nat,
    completadas: nat, completadasPercent: real,
    pendientes: nat, pendientesPercent: real,
    errores: nat, erroresPercent: real)

  function HeadlineMetrics(filtered: seq<Record>): Headline
  {
    var total := |filtered|;
    var done := |Where(filtered, IsDoneRow)|;
    var pending := |Where(filtered, StatusContains("Pendiente"))|;
    var errors := |Where(filtered, StatusContains("Error"))|;
    Headline(total, done, Percent(done, total), pending, Percent(pending, total), errors, Percent(errors, total))
  }

  /**
   * No count exceeds the number of filtered rows; each percentage is its count
   * over that number times 100, lies in [0, 100], and is 0 for an empty selection.
   */
  lemma HeadlineBounds(filtered: seq<Record>)
    ensures var h := HeadlineMetrics(filtered);
      && h.total == |filtered|
      && h.completadas <= h.total && h.pendientes <= h.total && h.errores <= h.total
      && 0.0 <= h.completadasPercent <= 100.0
      && 0.0 <= h.pendientesPercent <= 100.0
      && 0.0 <= h.erroresPercent <= 100.0
      && (h.total == 0 ==> h.completadasPercent == 0.0 && h.pendientesPercent == 0.0 && h.erroresPercent == 0.0)
      && (h.total > 0 ==>
            && h.completadasPercent * h.total as real == h.completadas as real * 100.0
            && h.pendientesPercent * h.total as real == h.pendientes as real * 100.0
            && h.erroresPercent * h.total as real == h.errores as real * 100.0)
  {
    var n := |filtered|;
    var done := |Where(filtered, IsDoneRow)|;
    var pending := |Where(filtered, StatusContains("Pendiente"))|;
    var errors := |Where(filtered, StatusContains("Error"))|;
    assert done <= n by { WhereLength(filtered, IsDoneRow); }
    assert pending <= n by { WhereLength(filtered, StatusContains("Pendiente")); }
    assert errors <= n by { WhereLength(filtered, StatusContains("Error")); }
    assert HeadlineMetrics(filtered) ==
      Headline(n, done, Percent(done, n), pending, Percent(pending, n), errors, Percent(errors, n));
  }

  /**
   * The headline counts against the categories: "Completadas" and "Con
   * Errores" are exactly the rows categorised Completado and Error, while
   * "Pendientes" is a raw substring count that also takes in the Error rows
   * mentioning "Pendiente", so it is at least the Pendiente category.
   */
  lemma HeadlineAgreesWithCategories(filtered: seq<Record>)
    ensures var h := HeadlineMetrics(filtered);
      && h.completadas == |Where(filtered, InCategory(Completado))|
      && h.errores == |Where(filtered, InCategory(Error))|
      && h.pendientes == |Where(filtered, InCategory(Pendiente))| +
                         |Where(filtered, StatusContainsBoth("Error", "Pendiente"))|
      && h.pendientes >= |Where(filtered, InCategory(Pendiente))|
  {
    forall r | r in filtered
      ensures IsDoneRow(r) == InCategory(Completado)(r)
      ensures StatusContains("Error")(r) == InCategory(Error)(r)
      ensures StatusContains("Pendiente")(r) <==>
        InCategory(Pendiente)(r) || StatusContainsBoth("Error", "Pendiente")(r)
      ensures !(InCategory(Pendiente)(r) && StatusContainsBoth("Error", "Pendiente")(r))
    {
      CategorizeStatusExactly(r.status);
    }
    WhereExt(filtered, IsDoneRow, InCategory(Completado));
    WhereExt(filtered, StatusContains("Error"), InCategory(Error));
    CountUnion(filtered, InCategory(Pendiente), StatusContainsBoth("Error", "Pendiente"), StatusContains("Pendiente"));
  }

  /** `filtered_df['Categoria'] = filtered_df['Status'].apply(categorize_status)`. */
  method AddCategoryColumn(filtered: seq<Record>) returns (categoria: seq<Category>)
    ensures |categoria| == |filtered|
    ensures forall i :: 0 <= i < |filtered| ==> categoria[i] == CategorizeStatus(filtered[i].status)
  {
    categoria := [];
    for i := 0 to |filtered|
      invariant |categoria| == i
      invariant forall k :: 0 <= k < i ==> categoria[k] == CategorizeStatus(filtered[k].status)
    {
      categoria := categoria + [CategorizeStatus(filtered[i].status)];
    }
  }

  /** `value_counts()` of the "Categoria" column: each category that occurs, with its number of rows. */
  function ValueCounts(categoria: seq<Category>): map<Category, nat>
  {
    map c | c in categoria :: multiset(categoria)[c]
  }

  /** The bar-chart counts: each is the number of rows in that category, and together they add up to the rows. */
  lemma {:induction false} CategoryCountsSpec(filtered: seq<Record>, categoria: seq<Category>)
    requires |categoria| == |filtered|
    requires forall i :: 0 <= i < |filtered| ==> categoria[i] == CategorizeStatus(filtered[i].status)
    ensures forall c :: c in ValueCounts(categoria) <==> |Where(filtered, InCategory(c))| > 0
    ensures forall c :: c in ValueCounts(categoria) ==> ValueCounts(categoria)[c] == |Where(filtered, InCategory(c))|
    ensures SumOfMultiplicities(multiset(categoria), ALL_CATEGORIES) == |filtered|
  {
    CategoryTally(filtered, categoria);
    SumOfMultiplicitiesCovers(categoria, ALL_CATEGORIES);
  }

  lemma {:induction false} CategoryTally(filtered: seq<Record>, categoria: seq<Category>)
    requires |categoria| == |filtered|
    requires forall i :: 0 <= i < |filtered| ==> categoria[i] == CategorizeStatus(filtered[i].status)
    ensures forall c :: multiset(categoria)[c] == |Where(filtered, InCategory(c))|
  {
    if filtered != [] {
      CategoryTally(filtered[1..], categoria[1..]);
      assert categoria == [categoria[0]] + categoria[1..];
    }
  }

  /** The rows with status `status` counted through the "Status" column. */
  lemma {:induction false} StatusTally(rows: seq<Record>, status: string)
    ensures multiset(Statuses(rows))[status] == |Where(rows, HasStatus(status))|
  {
    if rows != [] {
      StatusTally(rows[1..], status);
      assert Statuses(rows) == [rows[0].status] + Statuses(rows[1..]);
    }
  }

  /** One tab of the per-status detail: its status, its row count, its rows and its description. */
  datatype Tab = Tab(status: string, count: nat, rows: seq<Record>, description: Option<string>)

  function TabFor(filtered: seq<Record>, status: string): Tab
  {
    var group := Where(filtered, HasStatus(status));
    Tab(status, |group|, group, Describe(status))
  }

  /** A status tab holds exactly the filtered rows with that status, and as many as the "Status" column counts. */
  lemma TabForSpec(filtered: seq<Record>, status: string)
    ensures TabFor(filtered, status).count == multiset(Statuses(filtered))[status]
    ensures forall r :: r in TabFor(filtered, status).rows <==> r in filtered && r.status == status
  {
    StatusTally(filtered, status);
    WhereSpec(filtered, HasStatus(status));
  }

  function SumCounts(tabs: seq<Tab>): nat
  {
    if tabs == [] then 0 else SumCounts(tabs[..|tabs| - 1]) + tabs[|tabs| - 1].count
  }

  lemma SumCountsSnoc(tabs: seq<Tab>, tab: Tab)
    ensures SumCounts(tabs + [tab]) == SumCounts(tabs) + tab.count
  {
    assert (tabs + [tab])[..|tabs|] == tabs;
  }

  /**
   * The per-status loop: one tab per distinct status of the filtered rows, in
   * order of first appearance. No tab is empty, so the "no invoices with this
   * status" message is never shown, and the tab counts add up to the filtered rows.
   */
  method DetailTabs(filtered: seq<Record>) returns (tabs: seq<Tab>)
    ensures var statusList := Distinct(Statuses(filtered));
      && |tabs| == |statusList|
      && forall i :: 0 <= i < |tabs| ==> tabs[i] == TabFor(filtered, statusList[i])
    ensures forall i :: 0 <= i < |tabs| ==> tabs[i].count > 0
    ensures SumCounts(tabs) == |filtered|
  {
    var statusList := Distinct(Statuses(filtered));
    ghost var tally := multiset(Statuses(filtered));
    tabs := [];
    for i := 0 to |statusList|
      invariant |tabs| == i
      invariant forall k :: 0 <= k < i ==> tabs[k] == TabFor(filtered, statusList[k])
      invariant SumCounts(tabs) == SumOfMultiplicities(tally, statusList[..i])
    {
      var status := statusList[i];
      var statusRows := Where(filtered, HasStatus(status));
      var tab := Tab(status, |statusRows|, statusRows, Describe(status));
      assert tab == TabFor(filtered, status);
      assert tab.count == tally[status] by {
        TabForSpec(filtered, status);
      }
      SumOfMultiplicitiesSnoc(tally, statusList, i);
      SumCountsSnoc(tabs, tab);
      tabs := tabs + [tab];
    }
    TabsNonEmpty(filtered);
    assert statusList[..|statusList|] == statusList;
    SumOfMultiplicitiesCovers(Statuses(filtered), statusList);
  }

  /** Every status in the column has at least one row, so no tab is empty. */
  lemma TabsNonEmpty(filtered: seq<Record>)
    ensures forall status :: status in Distinct(Statuses(filtered)) ==> TabFor(filtered, status).count > 0
  {
    forall status | status in Distinct(Statuses(filtered))
      ensures TabFor(filtered, status).count > 0
    {
      TabForSpec(filtered, status);
    }
  }

  /**
   * The tabs partition the filtered rows: every row's status has a tab, the
   * tab statuses are distinct, and each tab holds exactly the rows with its status.
   */
  lemma DetailTabsPartition(filtered: seq<Record>)
    ensures var statusList := Distinct(Statuses(filtered));
      && NoDuplicates(statusList)
      && (forall r :: r in filtered ==> r.status in statusList)
      && (forall status, r :: status in statusList ==>
            (r in TabFor(filtered, status).rows <==> r in filtered && r.status == status))
  {
    var statusList := Distinct(Statuses(filtered));
    forall r | r in filtered
      ensures r.status in statusList
    {
      var i :| 0 <= i < |filtered| && filtered[i] == r;
      assert Statuses(filtered)[i] == r.status;
    }
    forall status | status in statusList
      ensures forall r :: r in TabFor(filtered, status).rows <==> r in filtered && r.status == status
    {
      TabForSpec(filtered, status);
    }
  }

  /** "Progreso General": the share of finished invoices in the whole, unfiltered sheet. */
  function Progress(rows: seq<Record>): real
  {
    if |rows| > 0 then |Where(rows, IsDoneRow)| as real / |rows| as real else 0.0
  }

  /** Progress lies in [0, 1]: finished rows over all rows, and 0 for an empty sheet. */
  lemma ProgressSpec(rows: seq<Record>)
    ensures 0.0 <= Progress(rows) <= 1.0
    ensures |rows| == 0 ==> Progress(rows) == 0.0
    ensures |rows| > 0 ==> Progress(rows) * |rows| as real == |Where(rows, IsDoneRow)| as real
  {
    var done := |Where(rows, IsDoneRow)|;
    assert done <= |rows| by { WhereLength(rows, IsDoneRow); }
    if |rows| > 0 {
      assert Progress(rows) == done as real / |rows| as real;
      RatioBounds(done as real, |rows| as real);
    }
  }

  /** The gauge shows one hundredth of the "Completadas" percentage that the headline shows when no filter is active. */
  lemma ProgressMatchesHeadline(rows: seq<Record>)
    ensures Progress(rows) * 100.0 == HeadlineMetrics(rows).completadasPercent
  {
    var done := |Where(rows, IsDoneRow)|;
    assert HeadlineMetrics(rows).completadasPercent == Percent(done, |rows|);
    if |rows| > 0 {
      PercentIsRatio(done, |rows|);
    }
  }

  lemma RatioBounds(d: real, n: real)
    requires 0.0 <= d <= n && n > 0.0
    ensures 0.0 <= d / n <= 1.0 && d / n * n == d
  {
  }

  lemma PercentIsRatio(count: nat, total: nat)
    requires total > 0
    ensures Percent(count, total) == count as real / total as real * 100.0
  {
  }

  /** One row of "Resumen Numérico"; the percentage is NaN (None) when the sheet is empty. */
  datatype SummaryRow = SummaryRow(name: string, count: nat, percent: Option<real>)

  /** `Cantidad / len(df) * 100` without a zero guard: pandas yields NaN for an empty sheet. */
  function SummaryPercent(count: nat, total: nat): (p: Option<real>)
    ensures p.None? <==> total == 0
    ensures p.Some? ==> p.value * total as real == count as real * 100.0
    ensures 0 < total == count ==> p == Some(100.0)
  {
    if total == 0 then None
    else
      var q := count as real / total as real;
      assert q * total as real == count as real;
      assert count == total ==> q == 1.0;
      Some(q * 100.0)
  }

  /**
   * The numeric summary over the whole sheet: its four named rows, the first
   * counting every row, each with the unguarded percentage of its count over
   * the number of rows (so NaN for an empty sheet, and 100 for the first row
   * otherwise).
   */
  function Summary(rows: seq<Record>): (t: seq<SummaryRow>)
    ensures |t| == 4
    ensures t[0].name == "Total Facturas" && t[1].name == "Completadas"
    ensures t[2].name == "En Proceso/Pendientes" && t[3].name == "Con Errores"
    ensures t[0].count == |rows|
    ensures forall i :: 0 <= i < 4 ==> t[i].percent == SummaryPercent(t[i].count, |rows|)
    ensures |rows| > 0 ==> t[0].percent == Some(100.0)
  {
    var n := |rows|;
    var done := |Where(rows, IsDoneRow)|;
    var inProgress := |Where(rows, StatusContainsEither("Proceso", "Pendiente"))|;
    var errors := |Where(rows, StatusContains("Error"))|;
    [ SummaryRow("Total Facturas", n, SummaryPercent(n, n)),
      SummaryRow("Completadas", done, SummaryPercent(done, n)),
      SummaryRow("En Proceso/Pendientes", inProgress, SummaryPercent(inProgress, n)),
      SummaryRow("Con Errores", errors, SummaryPercent(errors, n)) ]
  }

  /** A sheet with rows gives every summary percentage a value: NaN arises only from an empty sheet. */
  lemma SummaryDefined(rows: seq<Record>)
    requires |rows| > 0
    ensures forall i :: 0 <= i < |Summary(rows)| ==> Summary(rows)[i].percent.Some?
  {
    var t := Summary(rows);
    forall i | 0 <= i < 4
      ensures t[i].percent.Some?
    {
      assert t[i].percent == SummaryPercent(t[i].count, |rows|);
    }
  }

  /** No summary count exceeds the number of rows in the sheet. */
  lemma SummaryBounds(rows: seq<Record>)
    ensures forall i :: 0 <= i < 4 ==> Summary(rows)[i].count <= |rows|
  {
    var t := Summary(rows);
    assert t[1].count <= |rows| by { WhereLength(rows, IsDoneRow); }
    assert t[2].count <= |rows| by { WhereLength(rows, StatusContainsEither("Proceso", "Pendiente")); }
    assert t[3].count <= |rows| by { WhereLength(rows, StatusContains("Error")); }
  }

  /**
   * The summary against the rest of the dashboard: "Completadas" and "Con
   * Errores" agree with the unfiltered headline and with the progress gauge,
   * and "En Proceso/Pendientes" takes in every Pendiente and En Proceso row
   * (an "En Proceso" status holds "Proceso") as well as every row the
   * "Pendientes" headline counts.
   */
  lemma SummaryAgreesWithCategories(rows: seq<Record>)
    ensures Summary(rows)[1].count == HeadlineMetrics(rows).completadas
    ensures Summary(rows)[3].count == HeadlineMetrics(rows).errores
    ensures |rows| > 0 ==> Summary(rows)[1].count as real == Progress(rows) * |rows| as real
    ensures Summary(rows)[2].count >=
      |Where(rows, InCategory(Pendiente))| + |Where(rows, InCategory(EnProceso))|
    ensures Summary(rows)[2].count >= HeadlineMetrics(rows).pendientes
  {
    ProgressSpec(rows);
    var inProgress := StatusContainsEither("Proceso", "Pendiente");
    forall r | r in rows
      ensures !(InCategory(Pendiente)(r) && InCategory(EnProceso)(r))
      ensures InCategories(Pendiente, EnProceso)(r) <==> InCategory(Pendiente)(r) || InCategory(EnProceso)(r)
      ensures InCategories(Pendiente, EnProceso)(r) ==> inProgress(r)
    {
      CategorizeStatusExactly(r.status);
      if CategorizeStatus(r.status) == EnProceso {
        assert "En Proceso" == "En " + "Proceso";
        ContainsSuffix(r.status, "En ", "Proceso");
      }
    }
    CountUnion(rows, InCategory(Pendiente), InCategory(EnProceso), InCategories(Pendiente, EnProceso));
    CountMono(rows, InCategories(Pendiente, EnProceso), inProgress);
    CountMono(rows, StatusContains("Pendiente"), inProgress);
  }
}
