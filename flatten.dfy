/**
 * The `/api/structure` handler of server.ts: it walks the nested
 * month -> week -> activity -> task -> {KPIs, evidence} result of the
 * database query and emits one flat row per leaf combination, with a
 * placeholder row for a week without activities and for an activity without
 * tasks, and the KPI x evidence product for each task (server.ts:57-81).
 */
module Flatten {
  import opened JsValues
  import opened Rows

  // The nested query result; each field is named by its alias in the select
  // (server.ts:35-52), which is the key the row spread then carries.

  datatype KpiRec = KpiRec(
    kpi_id: Value, nombre_metrica: Value, tipo_dato: Value, meta_objetivo: Value,
    valor_actual: Value, es_obligatorio: Value)

  datatype EvidenceRec = EvidenceRec(
    evidence_req_id: Value, evidence_nombre: Value, es_obligatoria: Value, evidence_value: Value)

  datatype TaskRec = TaskRec(
    tarea_id: Value, tarea_desc: Value, tarea_completada: Value,
    kpis: seq<KpiRec>, evidencias_requeridas: seq<EvidenceRec>)

  datatype ActivityRec = ActivityRec(
    actividad_id: Value, actividad_desc: Value, es_critica: Value, actividad_tipo: Value,
    tareas: seq<TaskRec>)

  datatype WeekRec = WeekRec(
    semana_id: Value, numero_semana: Value, semana_titulo: Value, semana_closed: Value,
    actividades: seq<ActivityRec>)

  datatype MonthRec = MonthRec(
    mes_id: Value, numero_mes: Value, mes_nombre: Value, semanas: seq<WeekRec>)

  // Object spread: `{ ...r, ...x }` sets the columns that x carries. The
  // aliases of the six levels are pairwise distinct, so no spread overwrites
  // a column of another level.

  function SpreadMes(r: Row, m: MonthRec): Row
  {
    r.(mes_id := m.mes_id, numero_mes := m.numero_mes, mes_nombre := m.mes_nombre)
  }

  function SpreadSemana(r: Row, w: WeekRec): Row
  {
    r.(semana_id := w.semana_id, numero_semana := w.numero_semana,
       semana_titulo := w.semana_titulo, semana_closed := w.semana_closed)
  }

  function SpreadActividad(r: Row, a: ActivityRec): Row
  {
    r.(actividad_id := a.actividad_id, actividad_desc := a.actividad_desc,
       es_critica := a.es_critica, actividad_tipo := a.actividad_tipo)
  }

  function SpreadTarea(r: Row, t: TaskRec): Row
  {
    r.(tarea_id := t.tarea_id, tarea_desc := t.tarea_desc, tarea_completada := t.tarea_completada)
  }

  /** `...k`, where `None` is the placeholder `{}` used for a task without KPIs. */
  function SpreadKpi(r: Row, k: Option<KpiRec>): Row
  {
    match k
    case None => r
    case Some(kr) =>
      r.(kpi_id := kr.kpi_id, nombre_metrica := kr.nombre_metrica, tipo_dato := kr.tipo_dato,
         meta_objetivo := kr.meta_objetivo, valor_actual := kr.valor_actual,
         es_obligatorio := kr.es_obligatorio)
  }

  /** `...e`, where `None` is the placeholder `{}` used for a task without evidence. */
  function SpreadEvidence(r: Row, e: Option<EvidenceRec>): Row
  {
    match e
    case None => r
    case Some(er) =>
      r.(evidence_req_id := er.evidence_req_id, evidence_nombre := er.evidence_nombre,
         es_obligatoria := er.es_obligatoria, evidence_value := er.evidence_value)
  }

  /** `{ ...mes, ...sem }` */
  function WeekBase(m: MonthRec, w: WeekRec): Row
  {
    SpreadSemana(SpreadMes(EmptyRow, m), w)
  }

  /** `{ ...mes, ...sem, ...act }` */
  function ActivityBase(m: MonthRec, w: WeekRec, a: ActivityRec): Row
  {
    SpreadActividad(WeekBase(m, w), a)
  }

  /** `base = { ...mes, ...sem, ...act, ...tar }` */
  function TaskBase(m: MonthRec, w: WeekRec, a: ActivityRec, t: TaskRec): Row
  {
    SpreadTarea(ActivityBase(m, w, a), t)
  }

  function Somes<T>(s: seq<T>): seq<Option<T>>
  {
    seq(|s|, i requires 0 <= i < |s| => Some(s[i]))
  }

  /** `tar.kpis.length > 0 ? tar.kpis : [{}]` */
  function KpiSlots(t: TaskRec): seq<Option<KpiRec>>
  {
    if |t.kpis| > 0 then Somes(t.kpis) else [None]
  }

  /** `tar.evidencias_requeridas.length > 0 ? tar.evidencias_requeridas : [{}]` */
  function EvidenceSlots(t: TaskRec): seq<Option<EvidenceRec>>
  {
    if |t.evidencias_requeridas| > 0 then Somes(t.evidencias_requeridas) else [None]
  }

  // The rows each forEach callback pushes, in push order.

  /** `evs.forEach(e => push({ ...base, ...k, ...e }))` */
  function EvidenceRows(base: Row, k: Option<KpiRec>, evs: seq<Option<EvidenceRec>>): seq<Row>
  {
    if evs == [] then []
    else EvidenceRows(base, k, evs[..|evs| - 1]) + [SpreadEvidence(SpreadKpi(base, k), evs[|evs| - 1])]
  }

  /** `kpis.forEach(k => evs.forEach(...))`: KPI-major order. */
  function KpiRows(base: Row, ks: seq<Option<KpiRec>>, evs: seq<Option<EvidenceRec>>): seq<Row>
  {
    if ks == [] then []
    else KpiRows(base, ks[..|ks| - 1], evs) + EvidenceRows(base, ks[|ks| - 1], evs)
  }

  function TaskRows(m: MonthRec, w: WeekRec, a: ActivityRec, t: TaskRec): seq<Row>
  {
    KpiRows(TaskBase(m, w, a, t), KpiSlots(t), EvidenceSlots(t))
  }

  function TasksRows(m: MonthRec, w: WeekRec, a: ActivityRec, ts: seq<TaskRec>): seq<Row>
  {
    if ts == [] then []
    else TasksRows(m, w, a, ts[..|ts| - 1]) + TaskRows(m, w, a, ts[|ts| - 1])
  }

  /** A placeholder row when the activity has no tasks, then the rows of each task. */
  function ActivityRows(m: MonthRec, w: WeekRec, a: ActivityRec): seq<Row>
  {
    (if |a.tareas| == 0 then [ActivityBase(m, w, a)] else []) + TasksRows(m, w, a, a.tareas)
  }

  function ActivitiesRows(m: MonthRec, w: WeekRec, acts: seq<ActivityRec>): seq<Row>
  {
    if acts == [] then []
    else ActivitiesRows(m, w, acts[..|acts| - 1]) + ActivityRows(m, w, acts[|acts| - 1])
  }

  /** A placeholder row when the week has no activities, then the rows of each activity. */
  function WeekRows(m: MonthRec, w: WeekRec): seq<Row>
  {
    (if |w.actividades| == 0 then [WeekBase(m, w)] else []) + ActivitiesRows(m, w, w.actividades)
  }

  function WeeksRows(m: MonthRec, ws: seq<WeekRec>): seq<Row>
  {
    if ws == [] then []
    else WeeksRows(m, ws[..|ws| - 1]) + WeekRows(m, ws[|ws| - 1])
  }

  /** A month pushes nothing of its own: only its weeks' rows. */
  function MonthRows(m: MonthRec): seq<Row>
  {
    WeeksRows(m, m.semanas)
  }

  /** The `flattened` array of the handler for query result `data`. */
  function Flattened(data: seq<MonthRec>): seq<Row>
  {
    if data == [] then []
    else Flattened(data[..|data| - 1]) + MonthRows(data[|data| - 1])
  }

  // The handler's nested loops, one method per forEach callback; each appends
  // to the rows pushed so far.

  method PushEvidenceRows(flattened: seq<Row>, base: Row, k: Option<KpiRec>, evs: seq<Option<EvidenceRec>>)
    returns (out: seq<Row>)
    ensures out == flattened + EvidenceRows(base, k, evs)
  {
    out := flattened;
    for j := 0 to |evs|
      invariant out == flattened + EvidenceRows(base, k, evs[..j])
    {
      assert evs[..j + 1][..j] == evs[..j];
      out := out + [SpreadEvidence(SpreadKpi(base, k), evs[j])];
    }
    assert evs[..|evs|] == evs;
  }

  method PushTaskRows(flattened: seq<Row>, m: MonthRec, w: WeekRec, a: ActivityRec, t: TaskRec)
    returns (out: seq<Row>)
    ensures out == flattened + TaskRows(m, w, a, t)
  {
    var base := TaskBase(m, w, a, t);
    var kpis := KpiSlots(t);
    var evs := EvidenceSlots(t);
    out := flattened;
    for i := 0 to |kpis|
      invariant out == flattened + KpiRows(base, kpis[..i], evs)
    {
      assert kpis[..i + 1][..i] == kpis[..i];
      out := PushEvidenceRows(out, base, kpis[i], evs);
    }
    assert kpis[..|kpis|] == kpis;
  }

  lemma AppendAssoc(a: seq<Row>, b: seq<Row>, c: seq<Row>)
    ensures (a + b) + c == a + (b + c)
  {
  }

  lemma TasksRowsSnoc(m: MonthRec, w: WeekRec, a: ActivityRec, ts: seq<TaskRec>, i: nat)
    requires i < |ts|
    ensures TasksRows(m, w, a, ts[..i + 1]) == TasksRows(m, w, a, ts[..i]) + TaskRows(m, w, a, ts[i])
  {
    assert ts[..i + 1][..i] == ts[..i];
  }

  method PushActivityRows(flattened: seq<Row>, m: MonthRec, w: WeekRec, a: ActivityRec)
    returns (out: seq<Row>)
    ensures out == flattened + ActivityRows(m, w, a)
  {
    out := flattened;
    if |a.tareas| == 0 {
      out := out + [ActivityBase(m, w, a)];
    }
    ghost var start := out;
    ghost var placeholder := if |a.tareas| == 0 then [ActivityBase(m, w, a)] else [];
    assert start == flattened + placeholder;
    for i := 0 to |a.tareas|
      invariant out == start + TasksRows(m, w, a, a.tareas[..i])
    {
      TasksRowsSnoc(m, w, a, a.tareas, i);
      out := PushTaskRows(out, m, w, a, a.tareas[i]);
      AppendAssoc(start, TasksRows(m, w, a, a.tareas[..i]), TaskRows(m, w, a, a.tareas[i]));
    }
    assert a.tareas[..|a.tareas|] == a.tareas;
    AppendAssoc(flattened, placeholder, TasksRows(m, w, a, a.tareas));
  }

  lemma ActivitiesRowsSnoc(m: MonthRec, w: WeekRec, acts: seq<ActivityRec>, i: nat)
    requires i < |acts|
    ensures ActivitiesRows(m, w, acts[..i + 1]) == ActivitiesRows(m, w, acts[..i]) + ActivityRows(m, w, acts[i])
  {
    assert acts[..i + 1][..i] == acts[..i];
  }

  method PushWeekRows(flattened: seq<Row>, m: MonthRec, w: WeekRec) returns (out: seq<Row>)
    ensures out == flattened + WeekRows(m, w)
  {
    out := flattened;
    if |w.actividades| == 0 {
      out := out + [WeekBase(m, w)];
    }
    ghost var start := out;
    ghost var placeholder := if |w.actividades| == 0 then [WeekBase(m, w)] else [];
    assert start == flattened + placeholder;
    for i := 0 to |w.actividades|
      invariant out == start + ActivitiesRows(m, w, w.actividades[..i])
    {
      ActivitiesRowsSnoc(m, w, w.actividades, i);
      out := PushActivityRows(out, m, w, w.actividades[i]);
      AppendAssoc(start, ActivitiesRows(m, w, w.actividades[..i]), ActivityRows(m, w, w.actividades[i]));
    }
    assert w.actividades[..|w.actividades|] == w.actividades;
    AppendAssoc(flattened, placeholder, ActivitiesRows(m, w, w.actividades));
  }

  lemma WeeksRowsSnoc(m: MonthRec, ws: seq<WeekRec>, j: nat)
    requires j < |ws|
    ensures WeeksRows(m, ws[..j + 1]) == WeeksRows(m, ws[..j]) + WeekRows(m, ws[j])
  {
    assert ws[..j + 1][..j] == ws[..j];
  }

  lemma FlattenedSnoc(ms: seq<MonthRec>, i: nat)
    requires i < |ms|
    ensures Flattened(ms[..i + 1]) == Flattened(ms[..i]) + MonthRows(ms[i])
  {
    assert ms[..i + 1][..i] == ms[..i];
  }

  /**
   * The handler body after the query: nothing when `data` is null, otherwise
   * the rows of every month's weeks in order.
   */
  method FlattenStructure(data: Option<seq<MonthRec>>) returns (flattened: seq<Row>)
    ensures flattened == if data.Some? then Flattened(data.value) else []
  {
    flattened := [];
    if data.Some? {
      var ms := data.value;
      for i := 0 to |ms|
        invariant flattened == Flattened(ms[..i])
      {
        var mes := ms[i];
        ghost var start := flattened;
        for j := 0 to |mes.semanas|
          invariant flattened == start + WeeksRows(mes, mes.semanas[..j])
        {
          WeeksRowsSnoc(mes, mes.semanas, j);
          flattened := PushWeekRows(flattened, mes, mes.semanas[j]);
          AppendAssoc(start, WeeksRows(mes, mes.semanas[..j]), WeekRows(mes, mes.semanas[j]));
        }
        assert mes.semanas[..|mes.semanas|] == mes.semanas;
        FlattenedSnoc(ms, i);
      }
      assert ms[..|ms|] == ms;
    }
  }
}
