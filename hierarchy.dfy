/**
 * The client-side assembler of src/services/api.ts (`getStructure`): it folds
 * the flat joined rows back into the month -> week -> activity -> task ->
 * {KPI, evidence} tree of src/types.ts, reusing a node when its parent already
 * has a child with the row's id and appending a new one otherwise.
 */
module Hierarchy {
  import opened JsValues
  import opened Rows

  // The node types of src/types.ts. A field that getStructure copies from a
  // row column keeps the column's value; a flag is normalised with `!!`.

  datatype KPI = KPI(
    id: Value, tarea_id: Value, nombre_metrica: Value, tipo_dato: Value,
    meta_objetivo: Value, unidad: Value, valor_actual: Value,
    es_obligatorio: bool, valor_minimo: Value, valor_maximo: Value)

  datatype EvidenciaRequerida = EvidenciaRequerida(
    id: Value, tarea_id: Value, nombre_descriptivo: Value,
    tipo_archivo_esperado: Value, descripcion_requerimientos: Value,
    es_obligatoria: bool, evidence_value: Value)

  datatype Task = Task(
    id: Value, actividad_id: Value, descripcion: Value, estimacion_horas: Value,
    completada: bool, orden_actividad: Value,
    kpis: seq<KPI>, evidencias: seq<EvidenciaRequerida>)

  datatype Actividad = Actividad(
    id: Value, semana_id: Value, descripcion: Value, tipo: Value,
    es_critica: bool, criterio_cierre: Value, orden_semanal: Value,
    tareas: seq<Task>)

  datatype Semana = Semana(
    id: Value, mes_id: Value, numero_semana: Value, titulo: Value,
    closed: bool, actividades: seq<Actividad>)

  datatype Mes = Mes(
    id: Value, numero_mes: Value, nombre: Value, descripcion: Value,
    semanas: seq<Semana>)

  // The object literals getStructure builds for a node it has not seen yet.

  function NewMes(row: Row): Mes
  {
    Mes(row.mes_id, row.numero_mes, row.mes_nombre, Null, [])
  }

  function NewSemana(row: Row): Semana
  {
    Semana(row.semana_id, row.mes_id, row.numero_semana, row.semana_titulo,
      Truthy(row.semana_closed), [])
  }

  function NewActividad(row: Row): Actividad
  {
    Actividad(row.actividad_id, row.semana_id, row.actividad_desc, row.actividad_tipo,
      Truthy(row.es_critica), Null, Num(0), [])
  }

  function NewTask(row: Row): Task
  {
    Task(row.tarea_id, row.actividad_id, row.tarea_desc, Null,
      Truthy(row.tarea_completada), Num(0), [], [])
  }

  function NewKpi(row: Row): KPI
  {
    KPI(row.kpi_id, row.tarea_id, row.nombre_metrica, row.tipo_dato, row.meta_objetivo,
      Null, row.valor_actual, Truthy(row.es_obligatorio), Null, Null)
  }

  function NewEvidencia(row: Row): EvidenciaRequerida
  {
    EvidenciaRequerida(row.evidence_req_id, row.tarea_id, row.evidence_nombre,
      Null, Null, Truthy(row.es_obligatoria), row.evidence_value)
  }

  // The ids of each level, the key its find() compares with `===`.

  function MesIds(ms: seq<Mes>): seq<Value>
  {
    seq(|ms|, i requires 0 <= i < |ms| => ms[i].id)
  }

  function SemanaIds(ss: seq<Semana>): seq<Value>
  {
    seq(|ss|, i requires 0 <= i < |ss| => ss[i].id)
  }

  function ActividadIds(acts: seq<Actividad>): seq<Value>
  {
    seq(|acts|, i requires 0 <= i < |acts| => acts[i].id)
  }

  function TaskIds(ts: seq<Task>): seq<Value>
  {
    seq(|ts|, i requires 0 <= i < |ts| => ts[i].id)
  }

  function KpiIds(ks: seq<KPI>): seq<Value>
  {
    seq(|ks|, i requires 0 <= i < |ks| => ks[i].id)
  }

  function EvidenciaIds(es: seq<EvidenciaRequerida>): seq<Value>
  {
    seq(|es|, i requires 0 <= i < |es| => es[i].id)
  }

  // One row of the forEach body, level by level (src/services/api.ts:16-93).

  function AddToMeses(meses: seq<Mes>, row: Row): seq<Mes>
  {
    var k := IndexOfId(MesIds(meses), row.mes_id);
    if k < |meses| then meses[k := AddToMes(meses[k], row)]
    else meses + [AddToMes(NewMes(row), row)]
  }

  function AddToMes(mes: Mes, row: Row): Mes
  {
    mes.(semanas := AddToSemanas(mes.semanas, row))
  }

  function AddToSemanas(ss: seq<Semana>, row: Row): seq<Semana>
  {
    var k := IndexOfId(SemanaIds(ss), row.semana_id);
    if k < |ss| then ss[k := AddToSemana(ss[k], row)]
    else ss + [AddToSemana(NewSemana(row), row)]
  }

  function AddToSemana(semana: Semana, row: Row): Semana
  {
    semana.(actividades := AddToActividades(semana.actividades, row))
  }

  /** `if (row.actividad_id)`: a falsy id adds no activity. */
  function AddToActividades(acts: seq<Actividad>, row: Row): seq<Actividad>
  {
    if !Truthy(row.actividad_id) then acts
    else
      var k := IndexOfId(ActividadIds(acts), row.actividad_id);
      if k < |acts| then acts[k := AddToActividad(acts[k], row)]
      else acts + [AddToActividad(NewActividad(row), row)]
  }

  function AddToActividad(actividad: Actividad, row: Row): Actividad
  {
    actividad.(tareas := AddToTasks(actividad.tareas, row))
  }

  /** `if (row.tarea_id)`: a falsy id adds no task. */
  function AddToTasks(ts: seq<Task>, row: Row): seq<Task>
  {
    if !Truthy(row.tarea_id) then ts
    else
      var k := IndexOfId(TaskIds(ts), row.tarea_id);
      if k < |ts| then ts[k := AddToTask(ts[k], row)]
      else ts + [AddToTask(NewTask(row), row)]
  }

  /** KPIs and evidence are deduplicated independently of each other. */
  function AddToTask(tarea: Task, row: Row): Task
  {
    tarea.(kpis := AddToKpis(tarea.kpis, row), evidencias := AddToEvidencias(tarea.evidencias, row))
  }

  function AddToKpis(ks: seq<KPI>, row: Row): seq<KPI>
  {
    if Truthy(row.kpi_id) && row.kpi_id !in KpiIds(ks) then ks + [NewKpi(row)] else ks
  }

  function AddToEvidencias(es: seq<EvidenciaRequerida>, row: Row): seq<EvidenciaRequerida>
  {
    if Truthy(row.evidence_req_id) && row.evidence_req_id !in EvidenciaIds(es)
    then es + [NewEvidencia(row)]
    else es
  }

  /** The tree getStructure returns for `raw` (src/services/api.ts:14-95). */
  function Assemble(raw: seq<Row>): seq<Mes>
  {
    FoldRows([], raw, AddToMeses)
  }

  /**
   * The body of `raw.forEach` for one row: find or push the month, then the
   * week, then (when the ids are truthy) the activity and the task, then push
   * the KPI and the evidence entry unless the task already has them. The
   * source mutates the found objects in place; here the changed path is
   * written back level by level.
   */
  method AddRow(meses: seq<Mes>, row: Row) returns (result: seq<Mes>)
    ensures result == AddToMeses(meses, row)
  {
    var mi := Find(MesIds(meses), row.mes_id);
    var mes := if mi < |meses| then meses[mi] else NewMes(row);

    var semanas := mes.semanas;
    var si := Find(SemanaIds(semanas), row.semana_id);
    var semana := if si < |semanas| then semanas[si] else NewSemana(row);

    var actividades := AddRowToActividades(semana.actividades, row);
    semana := semana.(actividades := actividades);
    semanas := if si < |semanas| then semanas[si := semana] else semanas + [semana];
    mes := mes.(semanas := semanas);
    result := if mi < |meses| then meses[mi := mes] else meses + [mes];
  }

  /** The activity and task levels of the forEach body. */
  method AddRowToActividades(acts: seq<Actividad>, row: Row) returns (result: seq<Actividad>)
    ensures result == AddToActividades(acts, row)
  {
    result := acts;
    if Truthy(row.actividad_id) {
      var ai := Find(ActividadIds(acts), row.actividad_id);
      var actividad := if ai < |acts| then acts[ai] else NewActividad(row);

      if Truthy(row.tarea_id) {
        var tareas := actividad.tareas;
        var ti := Find(TaskIds(tareas), row.tarea_id);
        var tarea := if ti < |tareas| then tareas[ti] else NewTask(row);
        tarea := AddRowToTask(tarea, row);
        tareas := if ti < |tareas| then tareas[ti := tarea] else tareas + [tarea];
        actividad := actividad.(tareas := tareas);
      }
      result := if ai < |acts| then acts[ai := actividad] else acts + [actividad];
    }
  }

  /** The KPI and evidence pushes of the forEach body, each unless already present. */
  method AddRowToTask(tarea: Task, row: Row) returns (result: Task)
    ensures result == AddToTask(tarea, row)
  {
    result := tarea;
    if Truthy(row.kpi_id) {
      var ki := Find(KpiIds(tarea.kpis), row.kpi_id);
      if ki == |tarea.kpis| {
        result := result.(kpis := tarea.kpis + [NewKpi(row)]);
      }
    }
    if Truthy(row.evidence_req_id) {
      var ei := Find(EvidenciaIds(tarea.evidencias), row.evidence_req_id);
      if ei == |tarea.evidencias| {
        result := result.(evidencias := tarea.evidencias + [NewEvidencia(row)]);
      }
    }
  }

  /** getStructure's transform: the forEach over `raw`, starting from `[]`. */
  method GetStructure(raw: seq<Row>) returns (meses: seq<Mes>)
    ensures meses == Assemble(raw)
  {
    meses := [];
    for i := 0 to |raw|
      invariant meses == Assemble(raw[..i])
    {
      AssembleStep(raw, i);
      meses := AddRow(meses, raw[i]);
    }
    assert raw[..|raw|] == raw;
  }

  /** One more row is one more step of the fold. */
  lemma AssembleStep(raw: seq<Row>, i: nat)
    requires i < |raw|
    ensures Assemble(raw[..i + 1]) == AddToMeses(Assemble(raw[..i]), raw[i])
  {
    assert raw[..i + 1] == raw[..i] + [raw[i]];
    FoldRowsSnoc([], raw[..i], raw[i], AddToMeses);
  }
}
