/**
 * The business categories of invoice statuses (`categorize_status`) and the
 * fixed table of status descriptions shown above each per-status tab.
 */
module Categories {
  import opened Wrappers
  import opened Text

  /** The five labels of the "Categoria" column. */
  datatype Category = Completado | Error | Pendiente | EnProceso | Otros

  const ALL_CATEGORIES: seq<Category> := [Completado, Error, Pendiente, EnProceso, Otros]

  /** The text written into the "Categoria" column. */
  function Label(c: Category): string
  {
    match c
    case Completado => "Completado"
    case Error => "Error"
    case Pendiente => "Pendiente"
    case EnProceso => "En Proceso"
    case Otros => "Otros"
  }

  /** The two statuses that count as finished, compared exactly. */
  predicate IsDone(status: string)
  {
    status == "Done" || status == "Ok Xtract - No pasar a Sandbox"
  }

  /** `categorize_status`: rules tried in order, the first that holds decides. */
  function CategorizeStatus(status: string): Category
  {
    if IsDone(status) then Completado
    else if Contains(status, "Error") then Error
    else if Contains(status, "Pendiente") then Pendiente
    else if Contains(status, "En Proceso") then EnProceso
    else Otros
  }

  /** Neither finished status holds any of the three markers the later rules look for. */
  lemma DoneHasNoMarker(status: string, marker: string)
    requires IsDone(status)
    requires marker == "Error" || marker == "Pendiente" || marker == "En Proceso"
    ensures !Contains(status, marker)
  {
    NotContainsByFirstChar(status, marker);
  }

  /**
   * Each category stated on its own, without the rule order: a status is an
   * Error exactly when it holds "Error" (so "Error" wins over "Pendiente"),
   * Pendiente exactly when it holds "Pendiente" but not "Error", and so on.
   */
  lemma CategorizeStatusExactly(status: string)
    ensures CategorizeStatus(status) == Completado <==> IsDone(status)
    ensures CategorizeStatus(status) == Error <==> Contains(status, "Error")
    ensures CategorizeStatus(status) == Pendiente <==>
      Contains(status, "Pendiente") && !Contains(status, "Error")
    ensures CategorizeStatus(status) == EnProceso <==>
      Contains(status, "En Proceso") && !Contains(status, "Pendiente") && !Contains(status, "Error")
    ensures CategorizeStatus(status) == Otros <==>
      !IsDone(status) && !Contains(status, "Error") && !Contains(status, "Pendiente") && !Contains(status, "En Proceso")
  {
    if IsDone(status) {
      DoneHasNoMarker(status, "Error");
      DoneHasNoMarker(status, "Pendiente");
      DoneHasNoMarker(status, "En Proceso");
    }
  }

  /** The statuses the dashboard knows a description for. */
  const KNOWN_STATUSES: set<string> := {
    "Done", "En Proceso", "Error", "Error NS", "Error Xtract",
    "Ok Xtract - No pasar a Sandbox", "Pendiente análisis Tekiio", "Pendiente Tekiio"
  }

  const DESCRIPTIONS: map<string, string> := map[
    "Done" := "✅ La factura ya se encuentra bien cargada tanto en Xtract como en NetSuite",
    "En Proceso" := "🔄 Se debe analizar la factura y parametrizar en Xtract",
    "Error" := "❌ Hay algún error en Xtract o en NetSuite",
    "Error NS" := "🔴 La factura se cargó bien en Xtract, pero hay un error de parametrización en NetSuite",
    "Error Xtract" := "🟠 Hay un error en la lectura de la factura en Xtract",
    "Ok Xtract - No pasar a Sandbox" := "🟢 La factura se cargó bien en Xtract, no amerita probarla en NetSuite",
    "Pendiente análisis Tekiio" := "🔍 La consultora de NetSuite debe analizar el caso",
    "Pendiente Tekiio" := "⏳ Está pendiente de migrar a NetSuite"
  ]

  /** The description shown in a status tab: present only for an exactly known status. */
  function Describe(status: string): (d: Option<string>)
    ensures d.Some? <==> status in KNOWN_STATUSES
    ensures d.Some? ==> |d.value| > 0
  {
    if status in DESCRIPTIONS then Some(DESCRIPTIONS[status]) else None
  }

  /** A status that begins with "Pendiente" and holds no 'E' cannot hold "Error", so it is Pendiente. */
  lemma PendientePrefixCategory(status: string)
    requires StartsWith(status, "Pendiente") && 'E' !in status
    ensures CategorizeStatus(status) == Pendiente
  {
    assert status[0] == 'P';
    NotContainsByFirstChar(status, "Error");
  }

  lemma EnProcesoCategory(status: string)
    requires status == "En Proceso"
    ensures CategorizeStatus(status) == EnProceso
  {
    EnProcesoHasNoError(status);
    NotContainsByFirstChar(status, "Pendiente");
    assert StartsWith(status, "En Proceso");
  }

  lemma EnProcesoHasNoError(status: string)
    requires status == "En Proceso"
    ensures !Contains(status, "Error")
  {
    assert status[1] != "Error"[1];
    NotContainsByFirstChar(status[1..], "Error");
  }

  /** A status that begins with "Error" is never a finished status, so it is an Error. */
  lemma ErrorPrefixCategory(status: string)
    requires StartsWith(status, "Error")
    ensures CategorizeStatus(status) == Error
  {
    assert status[0] == 'E';
    assert StartsWith(status, "Error") ==> Contains(status, "Error");
  }

  /**
   * The category each described status belongs to, read off its description:
   * the finished statuses, the three error statuses, the two statuses waiting
   * on the NetSuite consultancy, and the one still being worked on in Xtract.
   */
  const DESCRIBED_CATEGORY: map<string, Category> := map[
    "Done" := Completado,
    "Ok Xtract - No pasar a Sandbox" := Completado,
    "Error" := Error,
    "Error NS" := Error,
    "Error Xtract" := Error,
    "Pendiente análisis Tekiio" := Pendiente,
    "Pendiente Tekiio" := Pendiente,
    "En Proceso" := EnProceso
  ]

  /** `categorize_status` puts every described status in the category its description speaks of, so none is "Otros". */
  lemma KnownStatusCategory(status: string)
    requires status in KNOWN_STATUSES
    ensures status in DESCRIBED_CATEGORY
    ensures CategorizeStatus(status) == DESCRIBED_CATEGORY[status]
  {
    if IsDone(status) {
    } else if status == "Pendiente análisis Tekiio" || status == "Pendiente Tekiio" {
      assert StartsWith(status, "Pendiente") && 'E' !in status;
      PendientePrefixCategory(status);
    } else if status == "En Proceso" {
      EnProcesoCategory(status);
    } else {
      assert StartsWith(status, "Error");
      ErrorPrefixCategory(status);
    }
  }

  /** A status holding both markers is an Error, one holding "Pendiente" and "En Proceso" is Pendiente. */
  lemma PriorityOrder(status: string)
    ensures Contains(status, "Error") && Contains(status, "Pendiente") ==> CategorizeStatus(status) == Error
    ensures Contains(status, "Pendiente") && Contains(status, "En Proceso") && !Contains(status, "Error") ==>
      CategorizeStatus(status) == Pendiente
  {
    CategorizeStatusExactly(status);
  }
}
