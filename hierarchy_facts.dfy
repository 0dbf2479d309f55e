/**
 * What getStructure guarantees about the tree it builds from ANY row list:
 * at every level the children of one parent are the distinct ids that rows
 * under that parent carry, in order of first occurrence; a falsy activity,
 * task, KPI or evidence id creates no node; and a node, once created, keeps
 * the fields of the row that created it.
 */
module HierarchyFacts {
  import opened JsValues
  import opened Rows
  import opened Hierarchy

  // Looking a parent up by id, as the next row's find() would.

  function SemanasIn(ms: seq<Mes>, mesId: Value): seq<Semana>
  {
    var k := IndexOfId(MesIds(ms), mesId);
    if k < |ms| then ms[k].semanas else []
  }

  function ActividadesIn(ss: seq<Semana>, semanaId: Value): seq<Actividad>
  {
    var k := IndexOfId(SemanaIds(ss), semanaId);
    if k < |ss| then ss[k].actividades else []
  }

  function TasksIn(acts: seq<Actividad>, actividadId: Value): seq<Task>
  {
    var k := IndexOfId(ActividadIds(acts), actividadId);
    if k < |acts| then acts[k].tareas else []
  }

  function KpisIn(ts: seq<Task>, tareaId: Value): seq<KPI>
  {
    var k := IndexOfId(TaskIds(ts), tareaId);
    if k < |ts| then ts[k].kpis else []
  }

  function EvidenciasIn(ts: seq<Task>, tareaId: Value): seq<EvidenciaRequerida>
  {
    var k := IndexOfId(TaskIds(ts), tareaId);
    if k < |ts| then ts[k].evidencias else []
  }

  // A row changes only the children of the parents its ids name.

  lemma MesIdsStep(ms: seq<Mes>, row: Row)
    ensures MesIds(AddToMeses(ms, row)) ==
      if row.mes_id in MesIds(ms) then MesIds(ms) else MesIds(ms) + [row.mes_id]
  {
    var r := AddToMeses(ms, row);
    if IndexOfId(MesIds(ms), row.mes_id) < |ms| {
      assert forall j :: 0 <= j < |r| ==> r[j].id == ms[j].id;
      assert MesIds(r) == MesIds(ms);
    } else {
      assert MesIds(r) == MesIds(ms) + [row.mes_id];
    }
  }

  lemma MesesStep(ms: seq<Mes>, row: Row, x: Value)
    ensures MesIds(AddToMeses(ms, row)) ==
      if row.mes_id in MesIds(ms) then MesIds(ms) else MesIds(ms) + [row.mes_id]
    ensures SemanasIn(AddToMeses(ms, row), x) ==
      if row.mes_id == x then AddToSemanas(SemanasIn(ms, x), row) else SemanasIn(ms, x)
  {
    MesIdsStep(ms, row);
    if row.mes_id !in MesIds(ms) {
      IndexOfSnoc(MesIds(ms), row.mes_id, x);
    }
  }

  lemma SemanaIdsStep(ss: seq<Semana>, row: Row)
    ensures SemanaIds(AddToSemanas(ss, row)) ==
      if row.semana_id in SemanaIds(ss) then SemanaIds(ss) else SemanaIds(ss) + [row.semana_id]
  {
    var r := AddToSemanas(ss, row);
    if IndexOfId(SemanaIds(ss), row.semana_id) < |ss| {
      assert forall j :: 0 <= j < |r| ==> r[j].id == ss[j].id;
      assert SemanaIds(r) == SemanaIds(ss);
    } else {
      assert SemanaIds(r) == SemanaIds(ss) + [row.semana_id];
    }
  }

  lemma SemanasStep(ss: seq<Semana>, row: Row, y: Value)
    ensures SemanaIds(AddToSemanas(ss, row)) ==
      if row.semana_id in SemanaIds(ss) then SemanaIds(ss) else SemanaIds(ss) + [row.semana_id]
    ensures ActividadesIn(AddToSemanas(ss, row), y) ==
      if row.semana_id == y then AddToActividades(ActividadesIn(ss, y), row) else ActividadesIn(ss, y)
  {
    SemanaIdsStep(ss, row);
    if row.semana_id !in SemanaIds(ss) {
      IndexOfSnoc(SemanaIds(ss), row.semana_id, y);
    }
  }

  lemma ActividadIdsStep(acts: seq<Actividad>, row: Row)
    ensures ActividadIds(AddToActividades(acts, row)) ==
      if !Truthy(row.actividad_id) || row.actividad_id in ActividadIds(acts) then ActividadIds(acts)
      else ActividadIds(acts) + [row.actividad_id]
  {
    if Truthy(row.actividad_id) {
      var r := AddToActividades(acts, row);
      if IndexOfId(ActividadIds(acts), row.actividad_id) < |acts| {
        assert forall j :: 0 <= j < |r| ==> r[j].id == acts[j].id;
        assert ActividadIds(r) == ActividadIds(acts);
      } else {
        assert ActividadIds(r) == ActividadIds(acts) + [row.actividad_id];
      }
    }
  }

  lemma ActividadesStep(acts: seq<Actividad>, row: Row, a: Value)
    ensures ActividadIds(AddToActividades(acts, row)) ==
      if !Truthy(row.actividad_id) || row.actividad_id in ActividadIds(acts) then ActividadIds(acts)
      else ActividadIds(acts) + [row.actividad_id]
    ensures TasksIn(AddToActividades(acts, row), a) ==
      if Truthy(row.actividad_id) && row.actividad_id == a then AddToTasks(TasksIn(acts, a), row)
      else TasksIn(acts, a)
  {
    ActividadIdsStep(acts, row);
    if Truthy(row.actividad_id) && row.actividad_id !in ActividadIds(acts) {
      IndexOfSnoc(ActividadIds(acts), row.actividad_id, a);
    }
  }

  lemma TaskIdsStep(ts: seq<Task>, row: Row)
    ensures TaskIds(AddToTasks(ts, row)) ==
      if !Truthy(row.tarea_id) || row.tarea_id in TaskIds(ts) then TaskIds(ts)
      else TaskIds(ts) + [row.tarea_id]
  {
    if Truthy(row.tarea_id) {
      var r := AddToTasks(ts, row);
      if IndexOfId(TaskIds(ts), row.tarea_id) < |ts| {
        assert forall j :: 0 <= j < |r| ==> r[j].id == ts[j].id;
        assert TaskIds(r) == TaskIds(ts);
      } else {
        assert TaskIds(r) == TaskIds(ts) + [row.tarea_id];
      }
    }
  }

  lemma TaskKpisStep(ts: seq<Task>, row: Row, t: Value)
    ensures KpisIn(AddToTasks(ts, row), t) ==
      if Truthy(row.tarea_id) && row.tarea_id == t then AddToKpis(KpisIn(ts, t), row)
      else KpisIn(ts, t)
  {
    TaskIdsStep(ts, row);
    if Truthy(row.tarea_id) && row.tarea_id !in TaskIds(ts) {
      IndexOfSnoc(TaskIds(ts), row.tarea_id, t);
    }
  }

  lemma TaskEvidenciasStep(ts: seq<Task>, row: Row, t: Value)
    ensures EvidenciasIn(AddToTasks(ts, row), t) ==
      if Truthy(row.tarea_id) && row.tarea_id == t then AddToEvidencias(EvidenciasIn(ts, t), row)
      else EvidenciasIn(ts, t)
  {
    TaskIdsStep(ts, row);
    if Truthy(row.tarea_id) && row.tarea_id !in TaskIds(ts) {
      IndexOfSnoc(TaskIds(ts), row.tarea_id, t);
    }
  }

  lemma TasksStep(ts: seq<Task>, row: Row, t: Value)
    ensures TaskIds(AddToTasks(ts, row)) ==
      if !Truthy(row.tarea_id) || row.tarea_id in TaskIds(ts) then TaskIds(ts)
      else TaskIds(ts) + [row.tarea_id]
    ensures KpisIn(AddToTasks(ts, row), t) ==
      if Truthy(row.tarea_id) && row.tarea_id == t then AddToKpis(KpisIn(ts, t), row)
      else KpisIn(ts, t)
    ensures EvidenciasIn(AddToTasks(ts, row), t) ==
      if Truthy(row.tarea_id) && row.tarea_id == t then AddToEvidencias(EvidenciasIn(ts, t), row)
      else EvidenciasIn(ts, t)
  {
    TaskIdsStep(ts, row);
    TaskKpisStep(ts, row, t);
    TaskEvidenciasStep(ts, row, t);
  }

  lemma LeavesStep(ks: seq<KPI>, es: seq<EvidenciaRequerida>, row: Row)
    ensures KpiIds(AddToKpis(ks, row)) ==
      if !Truthy(row.kpi_id) || row.kpi_id in KpiIds(ks) then KpiIds(ks) else KpiIds(ks) + [row.kpi_id]
    ensures EvidenciaIds(AddToEvidencias(es, row)) ==
      if !Truthy(row.evidence_req_id) || row.evidence_req_id in EvidenciaIds(es) then EvidenciaIds(es)
      else EvidenciaIds(es) + [row.evidence_req_id]
  {
    if Truthy(row.kpi_id) && row.kpi_id !in KpiIds(ks) {
      assert KpiIds(AddToKpis(ks, row)) == KpiIds(ks) + [row.kpi_id];
    }
    if Truthy(row.evidence_req_id) && row.evidence_req_id !in EvidenciaIds(es) {
      assert EvidenciaIds(AddToEvidencias(es, row)) == EvidenciaIds(es) + [row.evidence_req_id];
    }
  }

  // The ids that the rows under one parent carry at the next level down, in
  // row order (falsy ids below the week level are skipped, as the `if`s do).

  function MesColumn(raw: seq<Row>): seq<Value>
  {
    if raw == [] then [] else MesColumn(raw[..|raw| - 1]) + [raw[|raw| - 1].mes_id]
  }

  function SemanaColumn(raw: seq<Row>, x: Value): seq<Value>
  {
    if raw == [] then []
    else
      var row := raw[|raw| - 1];
      SemanaColumn(raw[..|raw| - 1], x) + if row.mes_id == x then [row.semana_id] else []
  }

  predicate UnderSemana(row: Row, x: Value, y: Value)
  {
    row.mes_id == x && row.semana_id == y
  }

  predicate UnderActividad(row: Row, x: Value, y: Value, a: Value)
  {
    UnderSemana(row, x, y) && Truthy(row.actividad_id) && row.actividad_id == a
  }

  predicate UnderTask(row: Row, x: Value, y: Value, a: Value, t: Value)
  {
    UnderActividad(row, x, y, a) && Truthy(row.tarea_id) && row.tarea_id == t
  }

  function ActividadColumn(raw: seq<Row>, x: Value, y: Value): (col: seq<Value>)
    ensures TruthyIds(col)
  {
    if raw == [] then []
    else
      var row := raw[|raw| - 1];
      ActividadColumn(raw[..|raw| - 1], x, y)
        + if UnderSemana(row, x, y) && Truthy(row.actividad_id) then [row.actividad_id] else []
  }

  function TaskColumn(raw: seq<Row>, x: Value, y: Value, a: Value): (col: seq<Value>)
    ensures TruthyIds(col)
  {
    if raw == [] then []
    else
      var row := raw[|raw| - 1];
      TaskColumn(raw[..|raw| - 1], x, y, a)
        + if UnderActividad(row, x, y, a) && Truthy(row.tarea_id) then [row.tarea_id] else []
  }

  function KpiColumn(raw: seq<Row>, x: Value, y: Value, a: Value, t: Value): (col: seq<Value>)
    ensures TruthyIds(col)
  {
    if raw == [] then []
    else
      var row := raw[|raw| - 1];
      KpiColumn(raw[..|raw| - 1], x, y, a, t)
        + if UnderTask(row, x, y, a, t) && Truthy(row.kpi_id) then [row.kpi_id] else []
  }

  function EvidenciaColumn(raw: seq<Row>, x: Value, y: Value, a: Value, t: Value): (col: seq<Value>)
    ensures TruthyIds(col)
  {
    if raw == [] then []
    else
      var row := raw[|raw| - 1];
      EvidenciaColumn(raw[..|raw| - 1], x, y, a, t)
        + if UnderTask(row, x, y, a, t) && Truthy(row.evidence_req_id) then [row.evidence_req_id] else []
  }

  /** The last row is the last step of the forEach. */
  lemma AssembleSnoc(raw: seq<Row>)
    requires raw != []
    ensures Assemble(raw) == AddToMeses(Assemble(raw[..|raw| - 1]), raw[|raw| - 1])
  {
    assert raw == raw[..|raw| - 1] + [raw[|raw| - 1]];
    FoldRowsSnoc([], raw[..|raw| - 1], raw[|raw| - 1], AddToMeses);
  }

  // The children under a path of ids, and how one row changes them.

  function ActividadesAt(ms: seq<Mes>, x: Value, y: Value): seq<Actividad>
  {
    ActividadesIn(SemanasIn(ms, x), y)
  }

  function TasksAt(ms: seq<Mes>, x: Value, y: Value, a: Value): seq<Task>
  {
    TasksIn(ActividadesAt(ms, x, y), a)
  }

  lemma ActividadesAtStep(ms: seq<Mes>, row: Row, x: Value, y: Value)
    ensures ActividadesAt(AddToMeses(ms, row), x, y) ==
      if UnderSemana(row, x, y) then AddToActividades(ActividadesAt(ms, x, y), row)
      else ActividadesAt(ms, x, y)
  {
    MesesStep(ms, row, x);
    SemanasStep(SemanasIn(ms, x), row, y);
  }

  lemma TasksAtStep(ms: seq<Mes>, row: Row, x: Value, y: Value, a: Value)
    ensures TasksAt(AddToMeses(ms, row), x, y, a) ==
      if UnderActividad(row, x, y, a) then AddToTasks(TasksAt(ms, x, y, a), row)
      else TasksAt(ms, x, y, a)
  {
    ActividadesAtStep(ms, row, x, y);
    ActividadesStep(ActividadesAt(ms, x, y), row, a);
  }

  lemma LeavesAtStep(ms: seq<Mes>, row: Row, x: Value, y: Value, a: Value, t: Value)
    ensures KpisIn(TasksAt(AddToMeses(ms, row), x, y, a), t) ==
      if UnderTask(row, x, y, a, t) then AddToKpis(KpisIn(TasksAt(ms, x, y, a), t), row)
      else KpisIn(TasksAt(ms, x, y, a), t)
    ensures EvidenciasIn(TasksAt(AddToMeses(ms, row), x, y, a), t) ==
      if UnderTask(row, x, y, a, t) then AddToEvidencias(EvidenciasIn(TasksAt(ms, x, y, a), t), row)
      else EvidenciasIn(TasksAt(ms, x, y, a), t)
  {
    TasksAtStep(ms, row, x, y, a);
    TasksStep(TasksAt(ms, x, y, a), row, t);
  }

  /** The months are the distinct `mes_id`s of the rows, in order of first occurrence. */
  lemma {:induction false} AssembledMonths(raw: seq<Row>)
    ensures MesIds(Assemble(raw)) == FirstOccurrences(MesColumn(raw))
  {
    if raw != [] {
      var p := raw[..|raw| - 1];
      var row := raw[|raw| - 1];
      AssembledMonths(p);
      AssembleSnoc(raw);
      MesesStep(Assemble(p), row, row.mes_id);
      FirstOccurrencesSnoc(MesColumn(p), row.mes_id);
    }
  }

  /**
   * The weeks of month `x` are the distinct `semana_id`s of the rows with
   * `mes_id == x`, in order of first occurrence: deduplication is per month.
   */
  lemma {:induction false} AssembledWeeks(raw: seq<Row>, x: Value)
    ensures SemanaIds(SemanasIn(Assemble(raw), x)) == FirstOccurrences(SemanaColumn(raw, x))
  {
    if raw != [] {
      var p := raw[..|raw| - 1];
      var row := raw[|raw| - 1];
      var ms := Assemble(p);
      AssembledWeeks(p, x);
      AssembleSnoc(raw);
      MesesStep(ms, row, x);
      if row.mes_id == x {
        SemanasStep(SemanasIn(ms, x), row, row.semana_id);
        FirstOccurrencesSnoc(SemanaColumn(p, x), row.semana_id);
        assert SemanaColumn(raw, x) == SemanaColumn(p, x) + [row.semana_id];
      } else {
        assert SemanaColumn(raw, x) == SemanaColumn(p, x);
      }
    }
  }

  /**
   * The activities of week `y` of month `x` are the distinct truthy
   * `actividad_id`s of the rows under that week: the same activity id under
   * two different weeks yields one node in each.
   */
  lemma {:induction false} AssembledActivities(raw: seq<Row>, x: Value, y: Value)
    ensures ActividadIds(ActividadesAt(Assemble(raw), x, y)) == FirstOccurrences(ActividadColumn(raw, x, y))
  {
    if raw != [] {
      var p := raw[..|raw| - 1];
      var row := raw[|raw| - 1];
      var ms := Assemble(p);
      AssembledActivities(p, x, y);
      AssembleSnoc(raw);
      var acts := ActividadesAt(ms, x, y);
      ActividadesAtStep(ms, row, x, y);
      if UnderSemana(row, x, y) && Truthy(row.actividad_id) {
        ActividadesStep(acts, row, row.actividad_id);
        FirstOccurrencesSnoc(ActividadColumn(p, x, y), row.actividad_id);
        assert ActividadColumn(raw, x, y) == ActividadColumn(p, x, y) + [row.actividad_id];
        assert ActividadesAt(Assemble(raw), x, y) == AddToActividades(acts, row);
      } else {
        assert ActividadColumn(raw, x, y) == ActividadColumn(p, x, y);
        assert ActividadesAt(Assemble(raw), x, y) == acts;
      }
    }
  }

  /** The tasks of one activity are the distinct truthy `tarea_id`s of the rows under it. */
  lemma {:induction false} AssembledTasks(raw: seq<Row>, x: Value, y: Value, a: Value)
    ensures TaskIds(TasksAt(Assemble(raw), x, y, a)) == FirstOccurrences(TaskColumn(raw, x, y, a))
  {
    if raw != [] {
      var p := raw[..|raw| - 1];
      var row := raw[|raw| - 1];
      var ms := Assemble(p);
      AssembledTasks(p, x, y, a);
      AssembleSnoc(raw);
      var ts := TasksAt(ms, x, y, a);
      TasksAtStep(ms, row, x, y, a);
      if UnderActividad(row, x, y, a) && Truthy(row.tarea_id) {
        TasksStep(ts, row, row.tarea_id);
        FirstOccurrencesSnoc(TaskColumn(p, x, y, a), row.tarea_id);
        assert TaskColumn(raw, x, y, a) == TaskColumn(p, x, y, a) + [row.tarea_id];
        assert TasksAt(Assemble(raw), x, y, a) == AddToTasks(ts, row);
      } else {
        assert TaskColumn(raw, x, y, a) == TaskColumn(p, x, y, a);
        assert TasksAt(Assemble(raw), x, y, a) == ts;
      }
    }
  }

  /**
   * The KPIs of one task are the distinct truthy `kpi_id`s of the rows under
   * it and its evidence entries the distinct truthy `evidence_req_id`s, each
   * list deduplicated on its own: the KPI x evidence fan-out of the rows does
   * not multiply either list.
   */
  lemma {:induction false} AssembledLeaves(raw: seq<Row>, x: Value, y: Value, a: Value, t: Value)
    ensures KpiIds(KpisIn(TasksAt(Assemble(raw), x, y, a), t)) == FirstOccurrences(KpiColumn(raw, x, y, a, t))
    ensures EvidenciaIds(EvidenciasIn(TasksAt(Assemble(raw), x, y, a), t))
      == FirstOccurrences(EvidenciaColumn(raw, x, y, a, t))
  {
    if raw != [] {
      var p := raw[..|raw| - 1];
      var row := raw[|raw| - 1];
      var ms := Assemble(p);
      AssembledLeaves(p, x, y, a, t);
      AssembleSnoc(raw);
      var ks := KpisIn(TasksAt(ms, x, y, a), t);
      var es := EvidenciasIn(TasksAt(ms, x, y, a), t);
      LeavesAtStep(ms, row, x, y, a, t);
      if UnderTask(row, x, y, a, t) {
        assert KpisIn(TasksAt(Assemble(raw), x, y, a), t) == AddToKpis(ks, row);
        assert EvidenciasIn(TasksAt(Assemble(raw), x, y, a), t) == AddToEvidencias(es, row);
        LeavesStep(ks, es, row);
        FirstOccurrencesSnoc(KpiColumn(p, x, y, a, t), row.kpi_id);
        FirstOccurrencesSnoc(EvidenciaColumn(p, x, y, a, t), row.evidence_req_id);
        if Truthy(row.kpi_id) {
          assert KpiColumn(raw, x, y, a, t) == KpiColumn(p, x, y, a, t) + [row.kpi_id];
        } else {
          assert KpiColumn(raw, x, y, a, t) == KpiColumn(p, x, y, a, t);
        }
        if Truthy(row.evidence_req_id) {
          assert EvidenciaColumn(raw, x, y, a, t) == EvidenciaColumn(p, x, y, a, t) + [row.evidence_req_id];
        } else {
          assert EvidenciaColumn(raw, x, y, a, t) == EvidenciaColumn(p, x, y, a, t);
        }
      } else {
        assert KpisIn(TasksAt(Assemble(raw), x, y, a), t) == ks;
        assert EvidenciasIn(TasksAt(Assemble(raw), x, y, a), t) == es;
        assert KpiColumn(raw, x, y, a, t) == KpiColumn(p, x, y, a, t);
        assert EvidenciaColumn(raw, x, y, a, t) == EvidenciaColumn(p, x, y, a, t);
      }
    }
  }

  /** Every row's ids show up in the columns of the parents its ids name. */
  lemma {:induction false} RowInColumns(raw: seq<Row>, i: nat)
    requires i < |raw|
    ensures var row := raw[i];
      && row.mes_id in MesColumn(raw)
      && row.semana_id in SemanaColumn(raw, row.mes_id)
      && (Truthy(row.actividad_id) ==> row.actividad_id in ActividadColumn(raw, row.mes_id, row.semana_id))
      && (UnderActividad(row, row.mes_id, row.semana_id, row.actividad_id) && Truthy(row.tarea_id) ==>
            row.tarea_id in TaskColumn(raw, row.mes_id, row.semana_id, row.actividad_id))
      && (UnderTask(row, row.mes_id, row.semana_id, row.actividad_id, row.tarea_id) ==>
            (Truthy(row.kpi_id) ==>
               row.kpi_id in KpiColumn(raw, row.mes_id, row.semana_id, row.actividad_id, row.tarea_id))
            && (Truthy(row.evidence_req_id) ==>
               row.evidence_req_id in EvidenciaColumn(raw, row.mes_id, row.semana_id, row.actividad_id, row.tarea_id)))
  {
    if i < |raw| - 1 {
      RowInColumns(raw[..|raw| - 1], i);
      assert raw[..|raw| - 1][i] == raw[i];
    }
  }

  /**
   * Each row creates (or finds) its month and, under it, its week; a truthy
   * activity id yields an activity under that week and a falsy one none, and
   * likewise for the task under the activity and for the KPI and evidence
   * entry under the task.
   */
  lemma AssembledRowLands(raw: seq<Row>, i: nat)
    requires i < |raw|
    ensures var row := raw[i];
      var ms := Assemble(raw);
      var x, y, a, t := row.mes_id, row.semana_id, row.actividad_id, row.tarea_id;
      && x in MesIds(ms)
      && y in SemanaIds(SemanasIn(ms, x))
      && (a in ActividadIds(ActividadesAt(ms, x, y)) <==> Truthy(a))
      && (Truthy(a) ==> (t in TaskIds(TasksAt(ms, x, y, a)) <==> Truthy(t)))
      && (Truthy(a) && Truthy(t) ==>
            (row.kpi_id in KpiIds(KpisIn(TasksAt(ms, x, y, a), t)) <==> Truthy(row.kpi_id))
            && (row.evidence_req_id in EvidenciaIds(EvidenciasIn(TasksAt(ms, x, y, a), t))
                <==> Truthy(row.evidence_req_id)))
  {
    var row := raw[i];
    var x, y, a, t := row.mes_id, row.semana_id, row.actividad_id, row.tarea_id;
    RowInColumns(raw, i);
    AssembledMonths(raw);
    FirstOccurrencesSpec(MesColumn(raw));
    AssembledWeeks(raw, x);
    FirstOccurrencesSpec(SemanaColumn(raw, x));
    AssembledActivities(raw, x, y);
    FirstOccurrencesSpec(ActividadColumn(raw, x, y));
    AssembledTasks(raw, x, y, a);
    FirstOccurrencesSpec(TaskColumn(raw, x, y, a));
    AssembledLeaves(raw, x, y, a, t);
    FirstOccurrencesSpec(KpiColumn(raw, x, y, a, t));
    FirstOccurrencesSpec(EvidenciaColumn(raw, x, y, a, t));
  }

  // "First row wins": a later row never changes, drops or reorders a node
  // that already exists; it can only append children.

  predicate TaskExtends(before: Task, after: Task)
  {
    && before.(kpis := [], evidencias := []) == after.(kpis := [], evidencias := [])
    && before.kpis <= after.kpis
    && before.evidencias <= after.evidencias
  }

  predicate TasksExtend(before: seq<Task>, after: seq<Task>)
  {
    |before| <= |after| && forall i :: 0 <= i < |before| ==> TaskExtends(before[i], after[i])
  }

  predicate ActividadExtends(before: Actividad, after: Actividad)
  {
    before.(tareas := []) == after.(tareas := []) && TasksExtend(before.tareas, after.tareas)
  }

  predicate ActividadesExtend(before: seq<Actividad>, after: seq<Actividad>)
  {
    |before| <= |after| && forall i :: 0 <= i < |before| ==> ActividadExtends(before[i], after[i])
  }

  predicate SemanaExtends(before: Semana, after: Semana)
  {
    before.(actividades := []) == after.(actividades := []) && ActividadesExtend(before.actividades, after.actividades)
  }

  predicate SemanasExtend(before: seq<Semana>, after: seq<Semana>)
  {
    |before| <= |after| && forall i :: 0 <= i < |before| ==> SemanaExtends(before[i], after[i])
  }

  predicate MesExtends(before: Mes, after: Mes)
  {
    before.(semanas := []) == after.(semanas := []) && SemanasExtend(before.semanas, after.semanas)
  }

  predicate MesesExtend(before: seq<Mes>, after: seq<Mes>)
  {
    |before| <= |after| && forall i :: 0 <= i < |before| ==> MesExtends(before[i], after[i])
  }

  lemma AddToTasksExtends(ts: seq<Task>, row: Row)
    ensures TasksExtend(ts, AddToTasks(ts, row))
  {
  }

  lemma AddToActividadesExtends(acts: seq<Actividad>, row: Row)
    ensures ActividadesExtend(acts, AddToActividades(acts, row))
  {
    if Truthy(row.actividad_id) {
      var k := IndexOfId(ActividadIds(acts), row.actividad_id);
      if k < |acts| {
        AddToTasksExtends(acts[k].tareas, row);
      }
    }
  }

  lemma AddToSemanasExtends(ss: seq<Semana>, row: Row)
    ensures SemanasExtend(ss, AddToSemanas(ss, row))
  {
    var k := IndexOfId(SemanaIds(ss), row.semana_id);
    if k < |ss| {
      AddToActividadesExtends(ss[k].actividades, row);
    }
  }

  lemma AddToMesesExtends(ms: seq<Mes>, row: Row)
    ensures MesesExtend(ms, AddToMeses(ms, row))
  {
    var k := IndexOfId(MesIds(ms), row.mes_id);
    if k < |ms| {
      AddToSemanasExtends(ms[k].semanas, row);
    }
  }

  lemma TasksExtendTrans(a: seq<Task>, b: seq<Task>, c: seq<Task>)
    requires TasksExtend(a, b) && TasksExtend(b, c)
    ensures TasksExtend(a, c)
  {
  }

  lemma ActividadesExtendTrans(a: seq<Actividad>, b: seq<Actividad>, c: seq<Actividad>)
    requires ActividadesExtend(a, b) && ActividadesExtend(b, c)
    ensures ActividadesExtend(a, c)
  {
    forall i | 0 <= i < |a|
      ensures ActividadExtends(a[i], c[i])
    {
      TasksExtendTrans(a[i].tareas, b[i].tareas, c[i].tareas);
    }
  }

  lemma SemanasExtendTrans(a: seq<Semana>, b: seq<Semana>, c: seq<Semana>)
    requires SemanasExtend(a, b) && SemanasExtend(b, c)
    ensures SemanasExtend(a, c)
  {
    forall i | 0 <= i < |a|
      ensures SemanaExtends(a[i], c[i])
    {
      ActividadesExtendTrans(a[i].actividades, b[i].actividades, c[i].actividades);
    }
  }

  lemma MesesExtendTrans(a: seq<Mes>, b: seq<Mes>, c: seq<Mes>)
    requires MesesExtend(a, b) && MesesExtend(b, c)
    ensures MesesExtend(a, c)
  {
    forall i | 0 <= i < |a|
      ensures MesExtends(a[i], c[i])
    {
      SemanasExtendTrans(a[i].semanas, b[i].semanas, c[i].semanas);
    }
  }

  /**
   * First row wins: the tree built from a prefix of the rows survives in the
   * tree built from all of them, every node in its place with the fields
   * (`closed`, `es_critica`, `completada`, names, ...) that its first row gave
   * it; later rows only append children.
   */
  lemma {:induction false} AssemblePrefixSurvives(raw: seq<Row>, n: nat)
    requires n <= |raw|
    ensures MesesExtend(Assemble(raw[..n]), Assemble(raw))
  {
    if n == |raw| {
      assert raw[..n] == raw;
      MesesExtendReflexive(Assemble(raw));
    } else {
      var p := raw[..|raw| - 1];
      assert raw[..n] == p[..n];
      AssemblePrefixSurvives(p, n);
      AssembleSnoc(raw);
      AddToMesesExtends(Assemble(p), raw[|raw| - 1]);
      MesesExtendTrans(Assemble(raw[..n]), Assemble(p), Assemble(raw));
    }
  }

  lemma MesesExtendReflexive(ms: seq<Mes>)
    ensures MesesExtend(ms, ms)
  {
  }

  /** A search over `b` whose first |a| ids are those of `a` stops where the search over `a` does. */
  lemma {:induction false} IndexOfIdSamePrefix(a: seq<Value>, b: seq<Value>, v: Value)
    requires |a| <= |b| && v in a
    requires forall i :: 0 <= i < |a| ==> a[i] == b[i]
    ensures IndexOfId(b, v) == IndexOfId(a, v)
  {
    if a[0] != v {
      IndexOfIdSamePrefix(a[1..], b[1..], v);
    }
  }

  /** A longer tree keeps each month where it was, so looking a month up finds the extended one. */
  lemma MesesExtendLookup(before: seq<Mes>, after: seq<Mes>, x: Value)
    requires MesesExtend(before, after) && x in MesIds(before)
    ensures var k := IndexOfId(MesIds(before), x);
      && IndexOfId(MesIds(after), x) == k
      && before[k].(semanas := []) == after[k].(semanas := [])
    ensures SemanasExtend(SemanasIn(before, x), SemanasIn(after, x))
  {
    forall m | 0 <= m < |before|
      ensures MesIds(before)[m] == MesIds(after)[m]
    {
      assert before[m].(semanas := []).id == after[m].(semanas := []).id;
    }
    IndexOfIdSamePrefix(MesIds(before), MesIds(after), x);
  }

  /** The same for a week among the weeks of a month. */
  lemma SemanasExtendLookup(before: seq<Semana>, after: seq<Semana>, y: Value)
    requires SemanasExtend(before, after) && y in SemanaIds(before)
    ensures var k := IndexOfId(SemanaIds(before), y);
      && IndexOfId(SemanaIds(after), y) == k
      && before[k].(actividades := []) == after[k].(actividades := [])
    ensures ActividadesExtend(ActividadesIn(before, y), ActividadesIn(after, y))
  {
    forall m | 0 <= m < |before|
      ensures SemanaIds(before)[m] == SemanaIds(after)[m]
    {
      assert before[m].(actividades := []).id == after[m].(actividades := []).id;
    }
    IndexOfIdSamePrefix(SemanaIds(before), SemanaIds(after), y);
  }

  /** A new week id appends a node built from the row. */
  lemma NewSemanaAppended(ss: seq<Semana>, row: Row)
    requires row.semana_id !in SemanaIds(ss)
    ensures var after := AddToSemanas(ss, row);
      var k := IndexOfId(SemanaIds(after), row.semana_id);
      && k < |after|
      && after[k].(actividades := []) == NewSemana(row)
  {
    var after := AddToSemanas(ss, row);
    assert after == ss + [AddToSemana(NewSemana(row), row)];
    SemanaIdsStep(ss, row);
    IndexOfSnoc(SemanaIds(ss), row.semana_id, row.semana_id);
  }

  /** The first row carrying a week under a month creates that week's node from its own columns. */
  lemma WeekCreatedBy(raw: seq<Row>, i: nat)
    requires i < |raw|
    requires raw[i].semana_id !in SemanaColumn(raw[..i], raw[i].mes_id)
    ensures var row := raw[i];
      var ss := SemanasIn(Assemble(raw[..i + 1]), row.mes_id);
      var k := IndexOfId(SemanaIds(ss), row.semana_id);
      && row.mes_id in MesIds(Assemble(raw[..i + 1]))
      && k < |ss|
      && ss[k].(actividades := []) == NewSemana(row)
  {
    var row := raw[i];
    var x := row.mes_id;
    var p := raw[..i];
    AssembleStep(raw, i);
    AssembledWeeks(p, x);
    FirstOccurrencesSpec(SemanaColumn(p, x));
    MesesStep(Assemble(p), row, x);
    NewSemanaAppended(SemanasIn(Assemble(p), x), row);
  }

  /**
   * The week node for the first row carrying week `semana_id` under month
   * `mes_id` keeps that row's columns for good, with `closed` normalised by
   * truthiness; rows further down with the same ids do not change it.
   */
  lemma WeekFromFirstRow(raw: seq<Row>, i: nat)
    requires i < |raw|
    requires raw[i].semana_id !in SemanaColumn(raw[..i], raw[i].mes_id)
    ensures var row := raw[i];
      var ss := SemanasIn(Assemble(raw), row.mes_id);
      var k := IndexOfId(SemanaIds(ss), row.semana_id);
      && k < |ss|
      && ss[k].closed == Truthy(row.semana_closed)
      && ss[k].titulo == row.semana_titulo
      && ss[k].numero_semana == row.numero_semana
      && ss[k].mes_id == row.mes_id
  {
    var row := raw[i];
    var ms1 := Assemble(raw[..i + 1]);
    WeekCreatedBy(raw, i);
    AssemblePrefixSurvives(raw, i + 1);
    MesesExtendLookup(ms1, Assemble(raw), row.mes_id);
    SemanasExtendLookup(SemanasIn(ms1, row.mes_id), SemanasIn(Assemble(raw), row.mes_id), row.semana_id);
  }

  lemma ActividadesExtendLookup(before: seq<Actividad>, after: seq<Actividad>, a: Value)
    requires ActividadesExtend(before, after) && a in ActividadIds(before)
    ensures var k := IndexOfId(ActividadIds(before), a);
      && IndexOfId(ActividadIds(after), a) == k
      && before[k].(tareas := []) == after[k].(tareas := [])
    ensures TasksExtend(TasksIn(before, a), TasksIn(after, a))
  {
    forall m | 0 <= m < |before|
      ensures ActividadIds(before)[m] == ActividadIds(after)[m]
    {
      assert before[m].(tareas := []).id == after[m].(tareas := []).id;
    }
    IndexOfIdSamePrefix(ActividadIds(before), ActividadIds(after), a);
  }

  lemma TasksExtendLookup(before: seq<Task>, after: seq<Task>, t: Value)
    requires TasksExtend(before, after) && t in TaskIds(before)
    ensures var k := IndexOfId(TaskIds(before), t);
      && IndexOfId(TaskIds(after), t) == k
      && before[k].(kpis := [], evidencias := []) == after[k].(kpis := [], evidencias := [])
    ensures KpisIn(before, t) <= KpisIn(after, t)
    ensures EvidenciasIn(before, t) <= EvidenciasIn(after, t)
  {
    forall m | 0 <= m < |before|
      ensures TaskIds(before)[m] == TaskIds(after)[m]
    {
      assert before[m].(kpis := [], evidencias := []).id == after[m].(kpis := [], evidencias := []).id;
    }
    IndexOfIdSamePrefix(TaskIds(before), TaskIds(after), t);
  }

  /** A new activity id appends a node built from the row. */
  lemma NewActividadAppended(acts: seq<Actividad>, row: Row)
    requires Truthy(row.actividad_id) && row.actividad_id !in ActividadIds(acts)
    ensures var after := AddToActividades(acts, row);
      var k := IndexOfId(ActividadIds(after), row.actividad_id);
      && k < |after|
      && after[k].(tareas := []) == NewActividad(row)
  {
    var after := AddToActividades(acts, row);
    assert after == acts + [AddToActividad(NewActividad(row), row)];
    assert ActividadIds(after) == ActividadIds(acts) + [row.actividad_id];
    IndexOfSnoc(ActividadIds(acts), row.actividad_id, row.actividad_id);
  }

  /** The first row carrying an activity under a week creates that activity's node from its own columns. */
  lemma ActividadCreatedBy(raw: seq<Row>, i: nat)
    requires i < |raw| && Truthy(raw[i].actividad_id)
    requires raw[i].actividad_id !in ActividadColumn(raw[..i], raw[i].mes_id, raw[i].semana_id)
    ensures var row := raw[i];
      var acts := ActividadesAt(Assemble(raw[..i + 1]), row.mes_id, row.semana_id);
      var k := IndexOfId(ActividadIds(acts), row.actividad_id);
      && k < |acts|
      && acts[k].(tareas := []) == NewActividad(row)
  {
    var row := raw[i];
    var x, y := row.mes_id, row.semana_id;
    var p := raw[..i];
    AssembleStep(raw, i);
    AssembledActivities(p, x, y);
    FirstOccurrencesSpec(ActividadColumn(p, x, y));
    ActividadesAtStep(Assemble(p), row, x, y);
    NewActividadAppended(ActividadesAt(Assemble(p), x, y), row);
  }

  /**
   * The activity node for the first row carrying `actividad_id` under its
   * week keeps that row's columns for good, `es_critica` normalised by
   * truthiness.
   */
  lemma ActividadFromFirstRow(raw: seq<Row>, i: nat)
    requires i < |raw| && Truthy(raw[i].actividad_id)
    requires raw[i].actividad_id !in ActividadColumn(raw[..i], raw[i].mes_id, raw[i].semana_id)
    ensures var row := raw[i];
      var acts := ActividadesAt(Assemble(raw), row.mes_id, row.semana_id);
      var k := IndexOfId(ActividadIds(acts), row.actividad_id);
      && k < |acts|
      && acts[k].(tareas := []) == NewActividad(row)
      && acts[k].es_critica == Truthy(row.es_critica)
  {
    var row := raw[i];
    var x, y := row.mes_id, row.semana_id;
    var q := raw[..i + 1];
    var ms1, msF := Assemble(q), Assemble(raw);
    ActividadCreatedBy(raw, i);
    AssembledRowLands(q, i);
    AssemblePrefixSurvives(raw, i + 1);
    MesesExtendLookup(ms1, msF, x);
    SemanasExtendLookup(SemanasIn(ms1, x), SemanasIn(msF, x), y);
    ActividadesExtendLookup(ActividadesAt(ms1, x, y), ActividadesAt(msF, x, y), row.actividad_id);
  }

  /** A new task id appends a node built from the row. */
  lemma NewTaskAppended(ts: seq<Task>, row: Row)
    requires Truthy(row.tarea_id) && row.tarea_id !in TaskIds(ts)
    ensures var after := AddToTasks(ts, row);
      var k := IndexOfId(TaskIds(after), row.tarea_id);
      && k < |after|
      && after[k].(kpis := [], evidencias := []) == NewTask(row)
  {
    var after := AddToTasks(ts, row);
    assert after == ts + [AddToTask(NewTask(row), row)];
    assert TaskIds(after) == TaskIds(ts) + [row.tarea_id];
    IndexOfSnoc(TaskIds(ts), row.tarea_id, row.tarea_id);
  }

  /** The first row carrying a task under an activity creates that task's node from its own columns. */
  lemma TaskCreatedBy(raw: seq<Row>, i: nat)
    requires i < |raw| && Truthy(raw[i].actividad_id) && Truthy(raw[i].tarea_id)
    requires raw[i].tarea_id !in TaskColumn(raw[..i], raw[i].mes_id, raw[i].semana_id, raw[i].actividad_id)
    ensures var row := raw[i];
      var ts := TasksAt(Assemble(raw[..i + 1]), row.mes_id, row.semana_id, row.actividad_id);
      var k := IndexOfId(TaskIds(ts), row.tarea_id);
      && k < |ts|
      && ts[k].(kpis := [], evidencias := []) == NewTask(row)
  {
    var row := raw[i];
    var x, y, a := row.mes_id, row.semana_id, row.actividad_id;
    var p := raw[..i];
    AssembleStep(raw, i);
    AssembledTasks(p, x, y, a);
    FirstOccurrencesSpec(TaskColumn(p, x, y, a));
    TasksAtStep(Assemble(p), row, x, y, a);
    NewTaskAppended(TasksAt(Assemble(p), x, y, a), row);
  }

  /**
   * The task node for the first row carrying `tarea_id` under its activity
   * keeps that row's columns for good, `completada` normalised by truthiness.
   */
  lemma TaskFromFirstRow(raw: seq<Row>, i: nat)
    requires i < |raw| && Truthy(raw[i].actividad_id) && Truthy(raw[i].tarea_id)
    requires raw[i].tarea_id !in TaskColumn(raw[..i], raw[i].mes_id, raw[i].semana_id, raw[i].actividad_id)
    ensures var row := raw[i];
      var ts := TasksAt(Assemble(raw), row.mes_id, row.semana_id, row.actividad_id);
      var k := IndexOfId(TaskIds(ts), row.tarea_id);
      && k < |ts|
      && ts[k].(kpis := [], evidencias := []) == NewTask(row)
      && ts[k].completada == Truthy(row.tarea_completada)
  {
    var row := raw[i];
    var x, y, a := row.mes_id, row.semana_id, row.actividad_id;
    var q := raw[..i + 1];
    var ms1, msF := Assemble(q), Assemble(raw);
    TaskCreatedBy(raw, i);
    AssembledRowLands(q, i);
    AssemblePrefixSurvives(raw, i + 1);
    MesesExtendLookup(ms1, msF, x);
    SemanasExtendLookup(SemanasIn(ms1, x), SemanasIn(msF, x), y);
    ActividadesExtendLookup(ActividadesAt(ms1, x, y), ActividadesAt(msF, x, y), a);
    TasksExtendLookup(TasksAt(ms1, x, y, a), TasksAt(msF, x, y, a), row.tarea_id);
  }

  /** A KPI list that only grows at the end keeps each KPI where a lookup by id finds it. */
  lemma KpisPrefixLookup(before: seq<KPI>, after: seq<KPI>, id: Value)
    requires before <= after && id in KpiIds(before)
    ensures var k := IndexOfId(KpiIds(before), id);
      IndexOfId(KpiIds(after), id) == k && after[k] == before[k]
  {
    IndexOfIdSamePrefix(KpiIds(before), KpiIds(after), id);
  }

  lemma EvidenciasPrefixLookup(before: seq<EvidenciaRequerida>, after: seq<EvidenciaRequerida>, id: Value)
    requires before <= after && id in EvidenciaIds(before)
    ensures var k := IndexOfId(EvidenciaIds(before), id);
      IndexOfId(EvidenciaIds(after), id) == k && after[k] == before[k]
  {
    IndexOfIdSamePrefix(EvidenciaIds(before), EvidenciaIds(after), id);
  }

  /** A new KPI id appends a KPI built from the row; a new evidence id likewise. */
  lemma NewLeavesAppended(ks: seq<KPI>, es: seq<EvidenciaRequerida>, row: Row)
    ensures Truthy(row.kpi_id) && row.kpi_id !in KpiIds(ks) ==>
      var after := AddToKpis(ks, row);
      var k := IndexOfId(KpiIds(after), row.kpi_id);
      k < |after| && after[k] == NewKpi(row)
    ensures Truthy(row.evidence_req_id) && row.evidence_req_id !in EvidenciaIds(es) ==>
      var after := AddToEvidencias(es, row);
      var k := IndexOfId(EvidenciaIds(after), row.evidence_req_id);
      k < |after| && after[k] == NewEvidencia(row)
  {
    LeavesStep(ks, es, row);
    IndexOfSnoc(KpiIds(ks), row.kpi_id, row.kpi_id);
    IndexOfSnoc(EvidenciaIds(es), row.evidence_req_id, row.evidence_req_id);
  }

  /** The first row carrying a KPI under a task appends that KPI, built from its own columns. */
  lemma KpiCreatedBy(raw: seq<Row>, i: nat)
    requires i < |raw| && Truthy(raw[i].actividad_id) && Truthy(raw[i].tarea_id) && Truthy(raw[i].kpi_id)
    requires raw[i].kpi_id !in
      KpiColumn(raw[..i], raw[i].mes_id, raw[i].semana_id, raw[i].actividad_id, raw[i].tarea_id)
    ensures var row := raw[i];
      var ks := KpisIn(TasksAt(Assemble(raw[..i + 1]), row.mes_id, row.semana_id, row.actividad_id), row.tarea_id);
      var k := IndexOfId(KpiIds(ks), row.kpi_id);
      k < |ks| && ks[k] == NewKpi(row)
  {
    var row := raw[i];
    var x, y, a, t := row.mes_id, row.semana_id, row.actividad_id, row.tarea_id;
    var p := raw[..i];
    AssembleStep(raw, i);
    AssembledLeaves(p, x, y, a, t);
    FirstOccurrencesSpec(KpiColumn(p, x, y, a, t));
    LeavesAtStep(Assemble(p), row, x, y, a, t);
    NewLeavesAppended(KpisIn(TasksAt(Assemble(p), x, y, a), t), EvidenciasIn(TasksAt(Assemble(p), x, y, a), t), row);
  }

  /** The first row carrying an evidence entry under a task appends it, built from its own columns. */
  lemma EvidenciaCreatedBy(raw: seq<Row>, i: nat)
    requires i < |raw| && Truthy(raw[i].actividad_id) && Truthy(raw[i].tarea_id) && Truthy(raw[i].evidence_req_id)
    requires raw[i].evidence_req_id !in
      EvidenciaColumn(raw[..i], raw[i].mes_id, raw[i].semana_id, raw[i].actividad_id, raw[i].tarea_id)
    ensures var row := raw[i];
      var es := EvidenciasIn(TasksAt(Assemble(raw[..i + 1]), row.mes_id, row.semana_id, row.actividad_id), row.tarea_id);
      var k := IndexOfId(EvidenciaIds(es), row.evidence_req_id);
      k < |es| && es[k] == NewEvidencia(row)
  {
    var row := raw[i];
    var x, y, a, t := row.mes_id, row.semana_id, row.actividad_id, row.tarea_id;
    var p := raw[..i];
    AssembleStep(raw, i);
    AssembledLeaves(p, x, y, a, t);
    FirstOccurrencesSpec(EvidenciaColumn(p, x, y, a, t));
    LeavesAtStep(Assemble(p), row, x, y, a, t);
    NewLeavesAppended(KpisIn(TasksAt(Assemble(p), x, y, a), t), EvidenciasIn(TasksAt(Assemble(p), x, y, a), t), row);
  }

  /** The leaves of a task as the prefix of the rows built them survive in the whole tree. */
  lemma LeavesSurvive(raw: seq<Row>, i: nat)
    requires i < |raw| && Truthy(raw[i].actividad_id) && Truthy(raw[i].tarea_id)
    ensures var row := raw[i];
      var x, y, a, t := row.mes_id, row.semana_id, row.actividad_id, row.tarea_id;
      && KpisIn(TasksAt(Assemble(raw[..i + 1]), x, y, a), t) <= KpisIn(TasksAt(Assemble(raw), x, y, a), t)
      && EvidenciasIn(TasksAt(Assemble(raw[..i + 1]), x, y, a), t) <= EvidenciasIn(TasksAt(Assemble(raw), x, y, a), t)
  {
    var row := raw[i];
    var x, y, a := row.mes_id, row.semana_id, row.actividad_id;
    var q := raw[..i + 1];
    var ms1, msF := Assemble(q), Assemble(raw);
    AssembledRowLands(q, i);
    AssemblePrefixSurvives(raw, i + 1);
    MesesExtendLookup(ms1, msF, x);
    SemanasExtendLookup(SemanasIn(ms1, x), SemanasIn(msF, x), y);
    ActividadesExtendLookup(ActividadesAt(ms1, x, y), ActividadesAt(msF, x, y), a);
    TasksExtendLookup(TasksAt(ms1, x, y, a), TasksAt(msF, x, y, a), row.tarea_id);
  }

  /**
   * The KPI for the first row carrying `kpi_id` under its task keeps that
   * row's columns for good, `es_obligatorio` normalised by truthiness; the
   * same for the evidence entry and `es_obligatoria`.
   */
  lemma LeavesFromFirstRow(raw: seq<Row>, i: nat)
    requires i < |raw| && Truthy(raw[i].actividad_id) && Truthy(raw[i].tarea_id)
    ensures var row := raw[i];
      var ts := TasksAt(Assemble(raw), row.mes_id, row.semana_id, row.actividad_id);
      var ks := KpisIn(ts, row.tarea_id);
      var k := IndexOfId(KpiIds(ks), row.kpi_id);
      Truthy(row.kpi_id) && row.kpi_id !in KpiColumn(raw[..i], row.mes_id, row.semana_id, row.actividad_id, row.tarea_id)
      ==> k < |ks| && ks[k] == NewKpi(row) && ks[k].es_obligatorio == Truthy(row.es_obligatorio)
    ensures var row := raw[i];
      var ts := TasksAt(Assemble(raw), row.mes_id, row.semana_id, row.actividad_id);
      var es := EvidenciasIn(ts, row.tarea_id);
      var k := IndexOfId(EvidenciaIds(es), row.evidence_req_id);
      Truthy(row.evidence_req_id)
      && row.evidence_req_id !in EvidenciaColumn(raw[..i], row.mes_id, row.semana_id, row.actividad_id, row.tarea_id)
      ==> k < |es| && es[k] == NewEvidencia(row) && es[k].es_obligatoria == Truthy(row.es_obligatoria)
  {
    var row := raw[i];
    var x, y, a, t := row.mes_id, row.semana_id, row.actividad_id, row.tarea_id;
    LeavesSurvive(raw, i);
    var q := raw[..i + 1];
    if Truthy(row.kpi_id) && row.kpi_id !in KpiColumn(raw[..i], x, y, a, t) {
      KpiCreatedBy(raw, i);
      KpisPrefixLookup(KpisIn(TasksAt(Assemble(q), x, y, a), t), KpisIn(TasksAt(Assemble(raw), x, y, a), t), row.kpi_id);
    }
    if Truthy(row.evidence_req_id) && row.evidence_req_id !in EvidenciaColumn(raw[..i], x, y, a, t) {
      EvidenciaCreatedBy(raw, i);
      EvidenciasPrefixLookup(EvidenciasIn(TasksAt(Assemble(q), x, y, a), t),
        EvidenciasIn(TasksAt(Assemble(raw), x, y, a), t), row.evidence_req_id);
    }
  }

  lemma {:induction false} MesColumnLength(raw: seq<Row>)
    ensures |MesColumn(raw)| == |raw|
  {
    if raw != [] {
      MesColumnLength(raw[..|raw| - 1]);
    }
  }

  /**
   * A null `mes_id` and an absent one are both falsy, yet `===` tells them
   * apart: the two rows build two months.
   */
  lemma NullAndAbsentMonthIdsDiffer()
    ensures |Assemble([EmptyRow.(mes_id := Null), EmptyRow])| == 2
  {
    var raw := [EmptyRow.(mes_id := Null), EmptyRow];
    AssembleStep(raw, 0);
    AssembleStep(raw, 1);
    assert raw[..0] == [] && raw[..2] == raw;
    var one := Assemble(raw[..1]);
    assert one == [AddToMes(NewMes(raw[0]), raw[0])];
    assert MesIds(one) == [Null];
    assert IndexOfId(MesIds(one), Undefined) == 1;
  }

  /** No rows give no months; month ids are pairwise distinct and never more than the rows. */
  lemma MonthsOfRows(raw: seq<Row>)
    ensures raw == [] ==> Assemble(raw) == []
    ensures DistinctIds(MesIds(Assemble(raw)))
    ensures |Assemble(raw)| <= |raw|
  {
    AssembledMonths(raw);
    FirstOccurrencesSpec(MesColumn(raw));
    MesColumnLength(raw);
    assert |MesIds(Assemble(raw))| == |Assemble(raw)|;
  }

  /**
   * The month node for the first row carrying `mes_id` keeps that row's
   * `numero_mes` and `mes_nombre` for good, with a null description.
   */
  lemma MonthFromFirstRow(raw: seq<Row>, i: nat)
    requires i < |raw| && raw[i].mes_id !in MesColumn(raw[..i])
    ensures var row := raw[i];
      var ms := Assemble(raw);
      var k := IndexOfId(MesIds(ms), row.mes_id);
      k < |ms| && ms[k].(semanas := []) == NewMes(row)
  {
    var row := raw[i];
    var p, q := raw[..i], raw[..i + 1];
    AssembleStep(raw, i);
    AssembledMonths(p);
    FirstOccurrencesSpec(MesColumn(p));
    var ms0, ms1 := Assemble(p), Assemble(q);
    assert ms1 == ms0 + [AddToMes(NewMes(row), row)];
    assert MesIds(ms1) == MesIds(ms0) + [row.mes_id];
    IndexOfSnoc(MesIds(ms0), row.mes_id, row.mes_id);
    AssemblePrefixSurvives(raw, i + 1);
    MesesExtendLookup(ms1, Assemble(raw), row.mes_id);
  }
}
