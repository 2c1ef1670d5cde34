# Xtract invoice status dashboard: a verified model

This project models, in Dafny, the status logic of the Streamlit dashboard
`dashboard_xtract.py`. The dashboard tracks invoices that move through the
Xtract extraction tool and into NetSuite. From the spreadsheet
"Status proyecto xtract.xlsx" the dashboard computes:

- the sidebar's status and vendor option lists, and the filter they drive;
- the four headline metrics over the filtered rows ("Total Facturas",
  "Completadas", "Pendientes", "Con Errores") with zero-guarded percentages;
- the business category of each status (`categorize_status`), the
  "Categoria" column and its counts;
- one detail tab per distinct status, with the status's fixed description;
- the overall progress gauge over the whole, unfiltered sheet;
- the "Resumen Numérico" table over the whole sheet;
- the sidebar notice shown when a filter is active.

Modules:

- `Wrappers`: the `Option` type.
- `Seqs`: boolean-mask selection (`Where`), `unique()` in order of first
  appearance (`Distinct`), and counting lemmas.
- `Text`: Python's `sub in s` and `str.contains` for a plain pattern.
- `Categories`: `categorize_status` and the status descriptions.
- `Records`: rows, the sheet, the option lists, the filters and the notice.
- `Metrics`: the headline, the category column, the tabs, the progress and
  the summary.
- `Dashboard`: one run of the script, from the loaded sheet and the two
  selections to everything the page shows.

A row is its "Status" text and its optional "Proveedor" cell. The other
columns are only displayed, so they are not modelled. Reading the workbook
is a parameter of `Dashboard.Render`: `None` stands for a failed load.
Percentages are exact reals. The table below names, for each modelled
member, the source lines it models and what its contract states.

The headline percentages are guarded against an empty selection
(`dashboard_xtract.py:101`, `108`, `115`). The summary's percentage column
(`dashboard_xtract.py:304`) has no guard, so pandas yields NaN for an empty
sheet; `Metrics.Summary` models that NaN as `None`.

When no row matches both selections, or the sheet has no rows, the list of
statuses is empty. The tabs call (`dashboard_xtract.py:196`) then receives
no labels, which Streamlit refuses with an exception, and the script stops
before the tabs, the progress gauge, the summary and the sidebar notes.
`Dashboard.Render` models this as the `TabsRaised` page, which holds only
what was drawn before: the sidebar, the headline and the category chart. As
a consequence the NaN summary of an empty sheet is never shown.

## Model

| member | source | states |
|---|---|---|
| Categories.CategorizeStatusExactly | dashboard_xtract.py:156-166 | each of the five categories on its own, as an if-and-only-if over exact matches and substrings: Completado iff one of the two finished statuses; Error iff the status holds "Error"; Pendiente iff "Pendiente" and not "Error"; En Proceso iff "En Proceso" and neither earlier marker; Otros iff none of these |
| Categories.PriorityOrder | dashboard_xtract.py:159-163 | the rule order decides overlaps: "Error" beats "Pendiente", and "Pendiente" beats "En Proceso" |
| Categories.DoneHasNoMarker | dashboard_xtract.py:157-163 | neither finished status holds "Error", "Pendiente" or "En Proceso", so the exact-match rule never shadows a substring rule |
| Categories.Describe | dashboard_xtract.py:203-215 | a description is shown exactly for the eight known statuses, compared exactly, and it is never empty |
| Categories.KnownStatusCategory | dashboard_xtract.py:203-212 | `categorize_status` agrees, on every described status, with an independent table of the category each description speaks of: Done and Ok Xtract are Completado, the three Error statuses are Error, the two Pendiente statuses are Pendiente, "En Proceso" is En Proceso; none is Otros |
| Text.ContainsIffOccurs | dashboard_xtract.py:159-163 | the substring test holds exactly when the pattern occurs at some position of the status |
| Seqs.Distinct | dashboard_xtract.py:195 | `unique()` keeps every value, and only values, of the column, without duplicates |
| Seqs.DistinctFirstAppearance | dashboard_xtract.py:195 | `unique()` lists the values in order of their first appearance |
| Records.StatusOptionsSpec | dashboard_xtract.py:69 | the status options are "Todos" followed by every status in the sheet once, in order of first appearance |
| Records.VendorOptionsSpec | dashboard_xtract.py:73-81 | no vendor selector exactly when the column is absent or every vendor cell is missing, and then the selection is "Todos"; otherwise the options are "Todos" followed by each present vendor once |
| Records.ApplyFilters | dashboard_xtract.py:84-88 | the two successive narrowings give the rows that satisfy both selections at once |
| Records.SelectionSpec | dashboard_xtract.py:84-88 | with both selections "Todos" the sheet is unchanged; otherwise a row is kept iff each non-sentinel selection matches it exactly, with its multiplicity, in sheet order |
| Records.FilterNoticeSpec | dashboard_xtract.py:314-315 | the notice appears iff a filter is active; without it the filtered rows are the whole sheet; shown is at most total, and total is the sheet size |
| Metrics.Percent | dashboard_xtract.py:101 | the guarded percentage is 0 with no rows and count/total*100 otherwise, and lies in [0, 100] for a count within the total |
| Metrics.HeadlineBounds | dashboard_xtract.py:96-118 | each headline count is at most the filtered total; each percentage is count/total*100, lies in [0, 100] and is 0 for an empty selection |
| Metrics.HeadlineAgreesWithCategories | dashboard_xtract.py:100-114 | "Completadas" and "Con Errores" count exactly the Completado and Error rows; "Pendientes" counts the Pendiente rows plus the Error rows that also mention "Pendiente" |
| Metrics.AddCategoryColumn | dashboard_xtract.py:168 | the "Categoria" column has one entry per filtered row, the category of that row's status |
| Metrics.CategoryCountsSpec | dashboard_xtract.py:168-169 | `value_counts()` lists exactly the categories that occur, each with its number of rows, and the counts sum to the filtered total |
| Metrics.TabForSpec | dashboard_xtract.py:196-200 | a tab's rows are exactly the filtered rows with its status, and its count is that status's multiplicity in the column |
| Metrics.DetailTabs | dashboard_xtract.py:195-231 | one tab per distinct status in order of first appearance; no tab is empty, so the "no invoices" message is never shown; the tab counts sum to the filtered total |
| Metrics.DetailTabsPartition | dashboard_xtract.py:195-200 | the tab statuses are distinct, every filtered row's status has a tab, and each tab holds exactly the rows of its status |
| Metrics.ProgressSpec | dashboard_xtract.py:242-244 | progress lies in [0, 1], is finished rows over all rows, and is 0 for an empty sheet |
| Metrics.ProgressMatchesHeadline | dashboard_xtract.py:242-245 | the gauge percentage equals the "Completadas" percentage the headline shows when no filter is active |
| Metrics.SummaryPercent | dashboard_xtract.py:304 | the unguarded percentage is NaN exactly for an empty sheet, otherwise count/total*100, and 100 when the count is the total |
| Metrics.Summary | dashboard_xtract.py:294-304 | four named rows, the first counting the whole sheet; each percentage is the unguarded percentage of its count over the sheet size, so NaN for an empty sheet and 100 for the total row otherwise |
| Metrics.SummaryBounds | dashboard_xtract.py:296-301 | no summary count exceeds the number of rows |
| Metrics.SummaryAgreesWithCategories | dashboard_xtract.py:294-301 | "Completadas" and "Con Errores" equal the unfiltered headline counts and the progress gauge; "En Proceso/Pendientes" covers every Pendiente and En Proceso row and every row the "Pendientes" headline counts |
| Dashboard.Render | dashboard_xtract.py:34-318 | a failed load gives the error page; otherwise the top of the page holds the options, the filtered rows, the headline, the category column and its counts; the script stops at the tabs exactly when no row matches the selections; otherwise the page also holds the tabs, the progress of the whole sheet whatever the selections, the summary with every percentage defined, the total, and the notice with its shown and total counts, present iff a filter is active |

## Left out

- Reading the workbook, its caching and its error message are not modelled; the outcome of the read is the `loaded` parameter of `Dashboard.Render`.
- Streamlit layout, CSS, the colour maps, the Plotly pie, bar and gauge figures, and the tab label strings are presentation only.
- The "Última actualización" timestamp is left out because it reads the clock.
- The pie chart's `value_counts()` of statuses is not modelled as a map of its own; the same per-status counts are the tab counts (`Metrics.TabForSpec`).
- `value_counts()` orders by descending count; `Metrics.ValueCounts` is a map and keeps no order.
- Floating point is not modelled: percentages are exact reals, and the one-decimal rounding and formatting are left out.
- Missing (NaN) statuses are left out; a status is always a string. With NaN, `categorize_status` would raise while `str.contains(..., na=False)` would not match.
- Vendor cells are strings or missing; numeric or other cell types are not modelled.
- The columns shown in each tab (`display_columns`) are a presentation choice and are not modelled; a tab holds whole rows.
- `str.contains` is modelled only for the plain patterns the script uses, and for the alternation `'Proceso|Pendiente'` as "either substring"; general regular expressions are not modelled.
- `Metrics.Summary`: models pandas' NaN for an empty sheet as `None`, not as a floating-point value.
- The Streamlit library is not part of this model. `Dashboard.Render` assumes that an empty list of tab labels raises, as Streamlit documents, and models no other widget errors.
