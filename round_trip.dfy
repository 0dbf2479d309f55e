/**
 * The structure route and the client assembler together: assembling the
 * rows that server.ts flattens rebuilds the nested query result, node for
 * node, provided every month has a week, sibling ids are distinct, and the
 * ids the assembler tests with `if (...)` are truthy.
 */
module RoundTrip {
  import opened JsValues
  import opened Rows
  import opened Hierarchy
  import opened Flatten
  import opened FlattenFacts
  import HierarchyFacts

  // The tree of src/types.ts that a query result stands for: each node takes
  // its columns from its record, its parent id from the enclosing record, the
  // constants getStructure writes for fields the query does not select, and
  // its flags through `!!`.

  function ProjKpi(t: TaskRec, k: KpiRec): KPI
  {
    KPI(k.kpi_id, t.tarea_id, k.nombre_metrica, k.tipo_dato, k.meta_objetivo,
      Null, k.valor_actual, Truthy(k.es_obligatorio), Null, Null)
  }

  function ProjEvidencia(t: TaskRec, e: EvidenceRec): EvidenciaRequerida
  {
    EvidenciaRequerida(e.evidence_req_id, t.tarea_id, e.evidence_nombre,
      Null, Null, Truthy(e.es_obligatoria), e.evidence_value)
  }

  function ProjKpisOf(t: TaskRec, ks: seq<KpiRec>): seq<KPI>
  {
    seq(|ks|, i requires 0 <= i < |ks| => ProjKpi(t, ks[i]))
  }

  function ProjEvidenciasOf(t: TaskRec, es: seq<EvidenceRec>): seq<EvidenciaRequerida>
  {
    seq(|es|, i requires 0 <= i < |es| => ProjEvidencia(t, es[i]))
  }

  function ProjTask(a: ActivityRec, t: TaskRec): Task
  {
    Task(t.tarea_id, a.actividad_id, t.tarea_desc, Null, Truthy(t.tarea_completada), Num(0),
      ProjKpisOf(t, t.kpis), ProjEvidenciasOf(t, t.evidencias_requeridas))
  }

  function ProjTasksOf(a: ActivityRec, ts: seq<TaskRec>): seq<Task>
  {
    seq(|ts|, i requires 0 <= i < |ts| => ProjTask(a, ts[i]))
  }

  function ProjActividad(w: WeekRec, a: ActivityRec): Actividad
  {
    Actividad(a.actividad_id, w.semana_id, a.actividad_desc, a.actividad_tipo,
      Truthy(a.es_critica), Null, Num(0), ProjTasksOf(a, a.tareas))
  }

  function ProjActividadesOf(w: WeekRec, acts: seq<ActivityRec>): seq<Actividad>
  {
    seq(|acts|, i requires 0 <= i < |acts| => ProjActividad(w, acts[i]))
  }

  function ProjSemana(m: MonthRec, w: WeekRec): Semana
  {
    Semana(w.semana_id, m.mes_id, w.numero_semana, w.semana_titulo,
      Truthy(w.semana_closed), ProjActividadesOf(w, w.actividades))
  }

  function ProjSemanasOf(m: MonthRec, ws: seq<WeekRec>): seq<Semana>
  {
    seq(|ws|, i requires 0 <= i < |ws| => ProjSemana(m, ws[i]))
  }

  function ProjMes(m: MonthRec): Mes
  {
    Mes(m.mes_id, m.numero_mes, m.mes_nombre, Null, ProjSemanasOf(m, m.semanas))
  }

  function Project(data: seq<MonthRec>): seq<Mes>
  {
    seq(|data|, i requires 0 <= i < |data| => ProjMes(data[i]))
  }

  lemma ProjTasksSnoc(a: ActivityRec, ts: seq<TaskRec>, n: nat)
    requires n < |ts|
    ensures ProjTasksOf(a, ts[..n + 1]) == ProjTasksOf(a, ts[..n]) + [ProjTask(a, ts[n])]
  {
    var l := ProjTasksOf(a, ts[..n + 1]);
    var r := ProjTasksOf(a, ts[..n]) + [ProjTask(a, ts[n])];
    forall i | 0 <= i < |l|
      ensures l[i] == r[i]
    {
      assert ts[..n + 1][i] == ts[i];
    }
  }

  lemma ProjActividadesSnoc(w: WeekRec, acts: seq<ActivityRec>, n: nat)
    requires n < |acts|
    ensures ProjActividadesOf(w, acts[..n + 1]) == ProjActividadesOf(w, acts[..n]) + [ProjActividad(w, acts[n])]
  {
    var l := ProjActividadesOf(w, acts[..n + 1]);
    var r := ProjActividadesOf(w, acts[..n]) + [ProjActividad(w, acts[n])];
    forall i | 0 <= i < |l|
      ensures l[i] == r[i]
    {
      assert acts[..n + 1][i] == acts[i];
    }
  }

  lemma ProjSemanasSnoc(m: MonthRec, ws: seq<WeekRec>, n: nat)
    requires n < |ws|
    ensures ProjSemanasOf(m, ws[..n + 1]) == ProjSemanasOf(m, ws[..n]) + [ProjSemana(m, ws[n])]
  {
    var l := ProjSemanasOf(m, ws[..n + 1]);
    var r := ProjSemanasOf(m, ws[..n]) + [ProjSemana(m, ws[n])];
    forall i | 0 <= i < |l|
      ensures l[i] == r[i]
    {
      assert ws[..n + 1][i] == ws[i];
    }
  }

  lemma ProjectSnoc(data: seq<MonthRec>, n: nat)
    requires n < |data|
    ensures Project(data[..n + 1]) == Project(data[..n]) + [ProjMes(data[n])]
  {
    var l := Project(data[..n + 1]);
    var r := Project(data[..n]) + [ProjMes(data[n])];
    forall i | 0 <= i < |l|
      ensures l[i] == r[i]
    {
      assert data[..n + 1][i] == data[i];
    }
  }

  // Side conditions of the round trip.

  function KpiRecIds(ks: seq<KpiRec>): seq<Value>
  {
    seq(|ks|, i requires 0 <= i < |ks| => ks[i].kpi_id)
  }

  function EvidenceRecIds(es: seq<EvidenceRec>): seq<Value>
  {
    seq(|es|, i requires 0 <= i < |es| => es[i].evidence_req_id)
  }

  function TaskRecIds(ts: seq<TaskRec>): seq<Value>
  {
    seq(|ts|, i requires 0 <= i < |ts| => ts[i].tarea_id)
  }

  function ActivityRecIds(acts: seq<ActivityRec>): seq<Value>
  {
    seq(|acts|, i requires 0 <= i < |acts| => acts[i].actividad_id)
  }

  function WeekRecIds(ws: seq<WeekRec>): seq<Value>
  {
    seq(|ws|, i requires 0 <= i < |ws| => ws[i].semana_id)
  }

  function MonthRecIds(data: seq<MonthRec>): seq<Value>
  {
    seq(|data|, i requires 0 <= i < |data| => data[i].mes_id)
  }

  /** Ids the assembler tests for truthiness before it creates a node. */
  predicate TruthyKeys(ids: seq<Value>)
  {
    TruthyIds(ids) && DistinctIds(ids)
  }

  predicate LeavesKeyed(t: TaskRec)
  {
    TruthyKeys(KpiRecIds(t.kpis)) && TruthyKeys(EvidenceRecIds(t.evidencias_requeridas))
  }

  predicate TasksKeyed(ts: seq<TaskRec>)
  {
    TruthyKeys(TaskRecIds(ts)) && forall i :: 0 <= i < |ts| ==> LeavesKeyed(ts[i])
  }

  predicate ActivitiesKeyed(acts: seq<ActivityRec>)
  {
    TruthyKeys(ActivityRecIds(acts)) && forall i :: 0 <= i < |acts| ==> TasksKeyed(acts[i].tareas)
  }

  predicate WeeksKeyed(ws: seq<WeekRec>)
  {
    DistinctIds(WeekRecIds(ws)) && forall i :: 0 <= i < |ws| ==> ActivitiesKeyed(ws[i].actividades)
  }

  /** The query results the round trip holds for. */
  predicate Keyed(data: seq<MonthRec>)
  {
    DistinctIds(MonthRecIds(data))
    && forall i :: 0 <= i < |data| ==> |data[i].semanas| > 0 && WeeksKeyed(data[i].semanas)
  }

  // KPIs and evidence of one task.

  /** Rows whose KPI is absent or already listed leave the KPI list alone. */
  lemma {:induction false} KpisNoop(ks: seq<KPI>, rows: seq<Row>)
    requires forall r :: r in rows ==> !Truthy(r.kpi_id) || r.kpi_id in KpiIds(ks)
    ensures FoldRows(ks, rows, AddToKpis) == ks
    decreases |rows|
  {
    if rows != [] {
      assert rows[0] in rows;
      KpisNoop(ks, rows[1..]);
    }
  }

  lemma {:induction false} EvidenciasNoop(es: seq<EvidenciaRequerida>, rows: seq<Row>)
    requires forall r :: r in rows ==> !Truthy(r.evidence_req_id) || r.evidence_req_id in EvidenciaIds(es)
    ensures FoldRows(es, rows, AddToEvidencias) == es
    decreases |rows|
  {
    if rows != [] {
      assert rows[0] in rows;
      EvidenciasNoop(es, rows[1..]);
    }
  }

  /** The rows of one KPI slot add that KPI once, however many evidence slots there are. */
  lemma {:induction false} KpiBlock(m: MonthRec, w: WeekRec, a: ActivityRec, t: TaskRec,
                                    k: KpiRec, evs: seq<Option<EvidenceRec>>, ks: seq<KPI>)
    requires |evs| > 0 && Truthy(k.kpi_id) && k.kpi_id !in KpiIds(ks)
    ensures FoldRows(ks, EvidenceRows(TaskBase(m, w, a, t), Some(k), evs), AddToKpis) == ks + [ProjKpi(t, k)]
    decreases |evs|
  {
    var base := TaskBase(m, w, a, t);
    var n := |evs|;
    var p := evs[..n - 1];
    var last := SpreadEvidence(SpreadKpi(base, Some(k)), evs[n - 1]);
    SpreadCols(m, w, a, t, Some(k), evs[n - 1]);
    FoldRowsSnoc(ks, EvidenceRows(base, Some(k), p), last, AddToKpis);
    if n == 1 {
      assert EvidenceRows(base, Some(k), p) == [];
      assert NewKpi(last) == ProjKpi(t, k);
    } else {
      KpiBlock(m, w, a, t, k, p, ks);
      assert KpiIds(ks + [ProjKpi(t, k)])[|ks|] == k.kpi_id;
    }
  }

  /** Folding the rows of the first n KPI slots lists the first n KPIs. */
  lemma {:induction false} KpisFromRows(m: MonthRec, w: WeekRec, a: ActivityRec, t: TaskRec,
                                        evs: seq<Option<EvidenceRec>>, n: nat)
    requires |evs| > 0 && n <= |t.kpis| && TruthyKeys(KpiRecIds(t.kpis))
    ensures FoldRows([], KpiRows(TaskBase(m, w, a, t), Somes(t.kpis)[..n], evs), AddToKpis)
         == ProjKpisOf(t, t.kpis[..n])
  {
    var base := TaskBase(m, w, a, t);
    var slots := Somes(t.kpis)[..n];
    if n > 0 {
      var k := t.kpis[n - 1];
      assert slots[..n - 1] == Somes(t.kpis)[..n - 1];
      assert slots[n - 1] == Some(k);
      KpisFromRows(m, w, a, t, evs, n - 1);
      var before := ProjKpisOf(t, t.kpis[..n - 1]);
      FoldRowsAppend([], KpiRows(base, slots[..n - 1], evs), EvidenceRows(base, Some(k), evs), AddToKpis);
      assert KpiRecIds(t.kpis)[n - 1] == k.kpi_id;
      forall i | 0 <= i < |before|
        ensures KpiIds(before)[i] != k.kpi_id
      {
        assert KpiIds(before)[i] == KpiRecIds(t.kpis)[i];
      }
      KpiBlock(m, w, a, t, k, evs, before);
      assert before + [ProjKpi(t, k)] == ProjKpisOf(t, t.kpis[..n]);
    }
  }

  /** The KPI list assembled from a task's rows is the task's KPI list. */
  lemma TaskKpis(m: MonthRec, w: WeekRec, a: ActivityRec, t: TaskRec)
    requires TruthyKeys(KpiRecIds(t.kpis))
    ensures FoldRows([], TaskRows(m, w, a, t), AddToKpis) == ProjKpisOf(t, t.kpis)
  {
    var base := TaskBase(m, w, a, t);
    var evs := EvidenceSlots(t);
    if |t.kpis| == 0 {
      assert KpiRows(base, [None], evs) == EvidenceRows(base, None, evs);
      EvidenceRowsCarry(m, w, a, t, None, evs);
      KpisNoop([], EvidenceRows(base, None, evs));
    } else {
      KpisFromRows(m, w, a, t, evs, |t.kpis|);
      assert Somes(t.kpis)[..|t.kpis|] == Somes(t.kpis);
      assert t.kpis[..|t.kpis|] == t.kpis;
    }
  }

  /** Folding the rows of the first n evidence slots lists the first n requirements. */
  lemma {:induction false} EvidenciasFromBlock(m: MonthRec, w: WeekRec, a: ActivityRec, t: TaskRec,
                                               k: Option<KpiRec>, n: nat)
    requires n <= |t.evidencias_requeridas| && TruthyKeys(EvidenceRecIds(t.evidencias_requeridas))
    ensures FoldRows([], EvidenceRows(TaskBase(m, w, a, t), k, Somes(t.evidencias_requeridas)[..n]),
                     AddToEvidencias)
         == ProjEvidenciasOf(t, t.evidencias_requeridas[..n])
  {
    if n > 0 {
      var base, evs, j := TaskBase(m, w, a, t), t.evidencias_requeridas, n - 1;
      var slots := Somes(evs)[..j + 1];
      var front, last := EvidenceRows(base, k, slots[..j]), SpreadEvidence(SpreadKpi(base, k), Some(evs[j]));
      var before := ProjEvidenciasOf(t, evs[..j]);
      calc {
        FoldRows([], EvidenceRows(base, k, slots), AddToEvidencias);
        { assert slots[j] == Some(evs[j]); }
        FoldRows([], front + [last], AddToEvidencias);
        { FoldRowsSnoc([], front, last, AddToEvidencias); }
        AddToEvidencias(FoldRows([], front, AddToEvidencias), last);
        { assert slots[..j] == Somes(evs)[..j]; EvidenciasFromBlock(m, w, a, t, k, j); }
        AddToEvidencias(before, last);
        { EvidenceIsFresh(t, n); EvidenceNode(m, w, a, t, k, evs[j], before); }
        before + [ProjEvidencia(t, evs[j])];
        { assert before + [ProjEvidencia(t, evs[j])] == ProjEvidenciasOf(t, evs[..j + 1]); }
        ProjEvidenciasOf(t, evs[..j + 1]);
      }
    }
  }

  /** The n-th requirement of a keyed list is not among the nodes built for the ones before it. */
  lemma EvidenceIsFresh(t: TaskRec, n: nat)
    requires 0 < n <= |t.evidencias_requeridas| && TruthyKeys(EvidenceRecIds(t.evidencias_requeridas))
    ensures Truthy(t.evidencias_requeridas[n - 1].evidence_req_id)
    ensures t.evidencias_requeridas[n - 1].evidence_req_id
      !in EvidenciaIds(ProjEvidenciasOf(t, t.evidencias_requeridas[..n - 1]))
  {
    var evs := t.evidencias_requeridas;
    var before := ProjEvidenciasOf(t, evs[..n - 1]);
    assert EvidenceRecIds(evs)[n - 1] == evs[n - 1].evidence_req_id;
    forall i | 0 <= i < |before|
      ensures EvidenciaIds(before)[i] != evs[n - 1].evidence_req_id
    {
      assert EvidenciaIds(before)[i] == EvidenceRecIds(evs)[i];
    }
  }

  /** The row for a new requirement appends that requirement's node. */
  lemma EvidenceNode(m: MonthRec, w: WeekRec, a: ActivityRec, t: TaskRec, k: Option<KpiRec>,
                     e: EvidenceRec, before: seq<EvidenciaRequerida>)
    requires Truthy(e.evidence_req_id) && e.evidence_req_id !in EvidenciaIds(before)
    ensures AddToEvidencias(before, SpreadEvidence(SpreadKpi(TaskBase(m, w, a, t), k), Some(e)))
         == before + [ProjEvidencia(t, e)]
  {
    SpreadCols(m, w, a, t, k, Some(e));
  }

  /** Once the requirements are listed, another KPI slot's rows add none. */
  lemma EvidenceBlockNoop(m: MonthRec, w: WeekRec, a: ActivityRec, t: TaskRec, k: Option<KpiRec>)
    ensures FoldRows(ProjEvidenciasOf(t, t.evidencias_requeridas),
                     EvidenceRows(TaskBase(m, w, a, t), k, EvidenceSlots(t)), AddToEvidencias)
         == ProjEvidenciasOf(t, t.evidencias_requeridas)
  {
    var evs := t.evidencias_requeridas;
    var have := ProjEvidenciasOf(t, evs);
    var slots := EvidenceSlots(t);
    var rows := EvidenceRows(TaskBase(m, w, a, t), k, slots);
    EvidenceRowsAt(TaskBase(m, w, a, t), k, slots);
    forall r | r in rows
      ensures !Truthy(r.evidence_req_id) || r.evidence_req_id in EvidenciaIds(have)
    {
      var j :| 0 <= j < |rows| && rows[j] == r;
      SpreadCols(m, w, a, t, k, slots[j]);
      if |evs| > 0 {
        assert EvidenciaIds(have)[j] == evs[j].evidence_req_id;
      }
    }
    EvidenciasNoop(have, rows);
  }

  /** The rows of a task's first KPI slot list all its evidence requirements. */
  lemma FirstEvidenceBlock(m: MonthRec, w: WeekRec, a: ActivityRec, t: TaskRec, k: Option<KpiRec>)
    requires TruthyKeys(EvidenceRecIds(t.evidencias_requeridas))
    ensures FoldRows([], EvidenceRows(TaskBase(m, w, a, t), k, EvidenceSlots(t)), AddToEvidencias)
         == ProjEvidenciasOf(t, t.evidencias_requeridas)
  {
    var evs := t.evidencias_requeridas;
    if |evs| == 0 {
      var rows := EvidenceRows(TaskBase(m, w, a, t), k, [None]);
      EvidenceRowsAt(TaskBase(m, w, a, t), k, [None]);
      assert rows == [SpreadEvidence(SpreadKpi(TaskBase(m, w, a, t), k), None)];
      EvidenciasNoop([], rows);
    } else {
      EvidenciasFromBlock(m, w, a, t, k, |evs|);
      assert Somes(evs)[..|evs|] == Somes(evs);
      assert evs[..|evs|] == evs;
    }
  }

  lemma {:induction false} EvidenciasOverSlots(m: MonthRec, w: WeekRec, a: ActivityRec, t: TaskRec, n: nat)
    requires TruthyKeys(EvidenceRecIds(t.evidencias_requeridas)) && 1 <= n <= |KpiSlots(t)|
    ensures FoldRows([], KpiRows(TaskBase(m, w, a, t), KpiSlots(t)[..n], EvidenceSlots(t)), AddToEvidencias)
         == ProjEvidenciasOf(t, t.evidencias_requeridas)
  {
    var base := TaskBase(m, w, a, t);
    var ks := KpiSlots(t)[..n];
    var eslots := EvidenceSlots(t);
    assert ks[..n - 1] == KpiSlots(t)[..n - 1];
    assert KpiRows(base, ks, eslots) == KpiRows(base, ks[..n - 1], eslots) + EvidenceRows(base, ks[n - 1], eslots);
    if n == 1 {
      assert KpiRows(base, ks, eslots) == EvidenceRows(base, ks[0], eslots);
      FirstEvidenceBlock(m, w, a, t, ks[0]);
    } else {
      EvidenciasOverSlots(m, w, a, t, n - 1);
      FoldRowsAppend([], KpiRows(base, ks[..n - 1], eslots), EvidenceRows(base, ks[n - 1], eslots), AddToEvidencias);
      EvidenceBlockNoop(m, w, a, t, ks[n - 1]);
    }
  }

  /**
   * The evidence list assembled from a task's rows is the task's evidence
   * list: the KPI x evidence product repeats it once per KPI, and the
   * assembler keeps the first copy.
   */
  lemma TaskEvidencias(m: MonthRec, w: WeekRec, a: ActivityRec, t: TaskRec)
    requires TruthyKeys(EvidenceRecIds(t.evidencias_requeridas))
    ensures FoldRows([], TaskRows(m, w, a, t), AddToEvidencias) == ProjEvidenciasOf(t, t.evidencias_requeridas)
  {
    SlotCounts(t);
    EvidenciasOverSlots(m, w, a, t, |KpiSlots(t)|);
    assert KpiSlots(t)[..|KpiSlots(t)|] == KpiSlots(t);
  }

  // Tasks.

  /** A task's rows reach its KPI list and its evidence list independently. */
  lemma {:induction false} TaskFieldsCommute(c: Task, rows: seq<Row>)
    ensures FoldRows(c, rows, AddToTask)
         == c.(kpis := FoldRows(c.kpis, rows, AddToKpis), evidencias := FoldRows(c.evidencias, rows, AddToEvidencias))
    decreases |rows|
  {
    if rows != [] {
      TaskFieldsCommute(AddToTask(c, rows[0]), rows[1..]);
    }
  }

  /** Rows for the last task of the list all land in that task. */
  lemma {:induction false} TasksIntoLast(ts: seq<Task>, c: Task, rows: seq<Row>)
    requires Truthy(c.id) && c.id !in TaskIds(ts)
    requires forall i :: 0 <= i < |rows| ==> rows[i].tarea_id == c.id
    ensures FoldRows(ts + [c], rows, AddToTasks) == ts + [FoldRows(c, rows, AddToTask)]
    decreases |rows|
  {
    if rows != [] {
      assert TaskIds(ts + [c]) == TaskIds(ts) + [c.id];
      IndexOfSnoc(TaskIds(ts), c.id, c.id);
      assert AddToTasks(ts + [c], rows[0]) == ts + [AddToTask(c, rows[0])];
      TasksIntoLast(ts, AddToTask(c, rows[0]), rows[1..]);
    }
  }

  /** A new task's rows append exactly that task, with its KPIs and evidence. */
  lemma TaskNode(m: MonthRec, w: WeekRec, a: ActivityRec, t: TaskRec, ts: seq<Task>)
    requires Truthy(t.tarea_id) && t.tarea_id !in TaskIds(ts) && LeavesKeyed(t)
    ensures FoldRows(ts, TaskRows(m, w, a, t), AddToTasks) == ts + [ProjTask(a, t)]
  {
    var rows := TaskRows(m, w, a, t);
    TaskRowsNonEmpty(m, w, a, t);
    TaskRowsCarry(m, w, a, t);
    var r0 := rows[0];
    assert r0 in rows;
    var c := AddToTask(NewTask(r0), r0);
    assert AddToTasks(ts, r0) == ts + [c];
    forall i | 0 <= i < |rows[1..]|
      ensures rows[1..][i].tarea_id == c.id
    {
      assert rows[1..][i] in rows;
    }
    TasksIntoLast(ts, c, rows[1..]);
    TaskFieldsCommute(NewTask(r0), rows);
    TaskKpis(m, w, a, t);
    TaskEvidencias(m, w, a, t);
  }

  /** The n-th task of a keyed list is not among the nodes built for the ones before it. */
  lemma TaskIsFresh(a: ActivityRec, ts: seq<TaskRec>, n: nat)
    requires 0 < n <= |ts| && TasksKeyed(ts)
    ensures Truthy(ts[n - 1].tarea_id) && LeavesKeyed(ts[n - 1])
    ensures ts[n - 1].tarea_id !in TaskIds(ProjTasksOf(a, ts[..n - 1]))
  {
    var before := ProjTasksOf(a, ts[..n - 1]);
    assert TaskRecIds(ts)[n - 1] == ts[n - 1].tarea_id;
    forall i | 0 <= i < |before|
      ensures TaskIds(before)[i] != ts[n - 1].tarea_id
    {
      assert TaskIds(before)[i] == TaskRecIds(ts)[i];
    }
  }

  /** Folding the rows of an activity's first n tasks lists those n tasks. */
  lemma {:induction false} TasksFromRows(m: MonthRec, w: WeekRec, a: ActivityRec, n: nat)
    requires n <= |a.tareas| && TasksKeyed(a.tareas)
    ensures FoldRows([], TasksRows(m, w, a, a.tareas[..n]), AddToTasks) == ProjTasksOf(a, a.tareas[..n])
  {
    if n > 0 {
      var ts, k := a.tareas, n - 1;
      var front, last := TasksRows(m, w, a, ts[..k]), TaskRows(m, w, a, ts[k]);
      calc {
        FoldRows([], TasksRows(m, w, a, ts[..k + 1]), AddToTasks);
        { TasksRowsSnoc(m, w, a, ts, k); }
        FoldRows([], front + last, AddToTasks);
        { FoldRowsAppend([], front, last, AddToTasks); }
        FoldRows(FoldRows([], front, AddToTasks), last, AddToTasks);
        { TasksFromRows(m, w, a, k); }
        FoldRows(ProjTasksOf(a, ts[..k]), last, AddToTasks);
        { TaskIsFresh(a, ts, n); TaskNode(m, w, a, ts[k], ProjTasksOf(a, ts[..k])); }
        ProjTasksOf(a, ts[..k]) + [ProjTask(a, ts[k])];
        { ProjTasksSnoc(a, ts, k); }
        ProjTasksOf(a, ts[..k + 1]);
      }
    }
  }

  /** An activity's rows, placeholder or not, give its task list. */
  lemma ActivityTasks(m: MonthRec, w: WeekRec, a: ActivityRec)
    requires TasksKeyed(a.tareas)
    ensures FoldRows([], ActivityRows(m, w, a), AddToTasks) == ProjTasksOf(a, a.tareas)
  {
    if |a.tareas| == 0 {
      assert ActivityRows(m, w, a) == [ActivityBase(m, w, a)];
    } else {
      TasksFromRows(m, w, a, |a.tareas|);
      assert a.tareas[..|a.tareas|] == a.tareas;
      assert ActivityRows(m, w, a) == TasksRows(m, w, a, a.tareas);
    }
  }

  // Activities.

  lemma {:induction false} ActividadFieldCommute(c: Actividad, rows: seq<Row>)
    ensures FoldRows(c, rows, AddToActividad) == c.(tareas := FoldRows(c.tareas, rows, AddToTasks))
    decreases |rows|
  {
    if rows != [] {
      ActividadFieldCommute(AddToActividad(c, rows[0]), rows[1..]);
    }
  }

  /** Rows for the last activity of the list all land in that activity. */
  lemma {:induction false} ActividadesIntoLast(acts: seq<Actividad>, c: Actividad, rows: seq<Row>)
    requires Truthy(c.id) && c.id !in ActividadIds(acts)
    requires forall i :: 0 <= i < |rows| ==> rows[i].actividad_id == c.id
    ensures FoldRows(acts + [c], rows, AddToActividades) == acts + [FoldRows(c, rows, AddToActividad)]
    decreases |rows|
  {
    if rows != [] {
      assert ActividadIds(acts + [c]) == ActividadIds(acts) + [c.id];
      IndexOfSnoc(ActividadIds(acts), c.id, c.id);
      assert AddToActividades(acts + [c], rows[0]) == acts + [AddToActividad(c, rows[0])];
      ActividadesIntoLast(acts, AddToActividad(c, rows[0]), rows[1..]);
    }
  }

  /** A new activity's rows append exactly that activity, with its tasks. */
  lemma ActivityNode(m: MonthRec, w: WeekRec, a: ActivityRec, acts: seq<Actividad>)
    requires Truthy(a.actividad_id) && a.actividad_id !in ActividadIds(acts) && TasksKeyed(a.tareas)
    ensures FoldRows(acts, ActivityRows(m, w, a), AddToActividades) == acts + [ProjActividad(w, a)]
  {
    var rows := ActivityRows(m, w, a);
    ActivityRowsNonEmpty(m, w, a);
    ActivityRowsCarry(m, w, a);
    var r0 := rows[0];
    assert r0 in rows;
    var c := AddToActividad(NewActividad(r0), r0);
    assert AddToActividades(acts, r0) == acts + [c];
    forall i | 0 <= i < |rows[1..]|
      ensures rows[1..][i].actividad_id == c.id
    {
      assert rows[1..][i] in rows;
    }
    ActividadesIntoLast(acts, c, rows[1..]);
    ActividadFieldCommute(NewActividad(r0), rows);
    ActivityTasks(m, w, a);
  }

  /** The n-th activity of a keyed list is not among the nodes built for the ones before it. */
  lemma ActivityIsFresh(w: WeekRec, acts: seq<ActivityRec>, n: nat)
    requires 0 < n <= |acts| && ActivitiesKeyed(acts)
    ensures Truthy(acts[n - 1].actividad_id) && TasksKeyed(acts[n - 1].tareas)
    ensures acts[n - 1].actividad_id !in ActividadIds(ProjActividadesOf(w, acts[..n - 1]))
  {
    var before := ProjActividadesOf(w, acts[..n - 1]);
    assert ActivityRecIds(acts)[n - 1] == acts[n - 1].actividad_id;
    forall i | 0 <= i < |before|
      ensures ActividadIds(before)[i] != acts[n - 1].actividad_id
    {
      assert ActividadIds(before)[i] == ActivityRecIds(acts)[i];
    }
  }

  /** Folding the rows of a week's first n activities lists those n activities. */
  lemma {:induction false} ActivitiesFromRows(m: MonthRec, w: WeekRec, n: nat)
    requires n <= |w.actividades| && ActivitiesKeyed(w.actividades)
    ensures FoldRows([], ActivitiesRows(m, w, w.actividades[..n]), AddToActividades)
         == ProjActividadesOf(w, w.actividades[..n])
  {
    if n > 0 {
      var acts, k := w.actividades, n - 1;
      var front, last := ActivitiesRows(m, w, acts[..k]), ActivityRows(m, w, acts[k]);
      calc {
        FoldRows([], ActivitiesRows(m, w, acts[..k + 1]), AddToActividades);
        { ActivitiesRowsSnoc(m, w, acts, k); }
        FoldRows([], front + last, AddToActividades);
        { FoldRowsAppend([], front, last, AddToActividades); }
        FoldRows(FoldRows([], front, AddToActividades), last, AddToActividades);
        { ActivitiesFromRows(m, w, k); }
        FoldRows(ProjActividadesOf(w, acts[..k]), last, AddToActividades);
        { ActivityIsFresh(w, acts, n); ActivityNode(m, w, acts[k], ProjActividadesOf(w, acts[..k])); }
        ProjActividadesOf(w, acts[..k]) + [ProjActividad(w, acts[k])];
        { ProjActividadesSnoc(w, acts, k); }
        ProjActividadesOf(w, acts[..k + 1]);
      }
    }
  }

  /** A week's rows, placeholder or not, give its activity list. */
  lemma WeekActividades(m: MonthRec, w: WeekRec)
    requires ActivitiesKeyed(w.actividades)
    ensures FoldRows([], WeekRows(m, w), AddToActividades) == ProjActividadesOf(w, w.actividades)
  {
    if |w.actividades| == 0 {
      assert WeekRows(m, w) == [WeekBase(m, w)];
    } else {
      ActivitiesFromRows(m, w, |w.actividades|);
      assert w.actividades[..|w.actividades|] == w.actividades;
      assert WeekRows(m, w) == ActivitiesRows(m, w, w.actividades);
    }
  }

  // Weeks.

  lemma {:induction false} SemanaFieldCommute(c: Semana, rows: seq<Row>)
    ensures FoldRows(c, rows, AddToSemana) == c.(actividades := FoldRows(c.actividades, rows, AddToActividades))
    decreases |rows|
  {
    if rows != [] {
      SemanaFieldCommute(AddToSemana(c, rows[0]), rows[1..]);
    }
  }

  /** Rows for the last week of the list all land in that week. */
  lemma {:induction false} SemanasIntoLast(ss: seq<Semana>, c: Semana, rows: seq<Row>)
    requires c.id !in SemanaIds(ss)
    requires forall i :: 0 <= i < |rows| ==> rows[i].semana_id == c.id
    ensures FoldRows(ss + [c], rows, AddToSemanas) == ss + [FoldRows(c, rows, AddToSemana)]
    decreases |rows|
  {
    if rows != [] {
      assert SemanaIds(ss + [c]) == SemanaIds(ss) + [c.id];
      IndexOfSnoc(SemanaIds(ss), c.id, c.id);
      assert AddToSemanas(ss + [c], rows[0]) == ss + [AddToSemana(c, rows[0])];
      SemanasIntoLast(ss, AddToSemana(c, rows[0]), rows[1..]);
    }
  }

  /** A new week's rows append exactly that week, with its activities. */
  lemma WeekNode(m: MonthRec, w: WeekRec, ss: seq<Semana>)
    requires w.semana_id !in SemanaIds(ss) && ActivitiesKeyed(w.actividades)
    ensures FoldRows(ss, WeekRows(m, w), AddToSemanas) == ss + [ProjSemana(m, w)]
  {
    var rows := WeekRows(m, w);
    WeekRowsNonEmpty(m, w);
    WeekRowsCarry(m, w);
    var r0 := rows[0];
    assert r0 in rows;
    var c := AddToSemana(NewSemana(r0), r0);
    assert AddToSemanas(ss, r0) == ss + [c];
    forall i | 0 <= i < |rows[1..]|
      ensures rows[1..][i].semana_id == c.id
    {
      assert rows[1..][i] in rows;
    }
    SemanasIntoLast(ss, c, rows[1..]);
    SemanaFieldCommute(NewSemana(r0), rows);
    WeekActividades(m, w);
  }

  /** The n-th week of a keyed list is not among the nodes built for the ones before it. */
  lemma WeekIsFresh(m: MonthRec, ws: seq<WeekRec>, n: nat)
    requires 0 < n <= |ws| && WeeksKeyed(ws)
    ensures ActivitiesKeyed(ws[n - 1].actividades)
    ensures ws[n - 1].semana_id !in SemanaIds(ProjSemanasOf(m, ws[..n - 1]))
  {
    var before := ProjSemanasOf(m, ws[..n - 1]);
    assert WeekRecIds(ws)[n - 1] == ws[n - 1].semana_id;
    forall i | 0 <= i < |before|
      ensures SemanaIds(before)[i] != ws[n - 1].semana_id
    {
      assert SemanaIds(before)[i] == WeekRecIds(ws)[i];
    }
  }

  /** Folding the rows of a month's first n weeks lists those n weeks. */
  lemma {:induction false} WeeksFromRows(m: MonthRec, n: nat)
    requires n <= |m.semanas| && WeeksKeyed(m.semanas)
    ensures FoldRows([], WeeksRows(m, m.semanas[..n]), AddToSemanas) == ProjSemanasOf(m, m.semanas[..n])
  {
    if n > 0 {
      var ws, k := m.semanas, n - 1;
      var front, last := WeeksRows(m, ws[..k]), WeekRows(m, ws[k]);
      calc {
        FoldRows([], WeeksRows(m, ws[..k + 1]), AddToSemanas);
        { WeeksRowsSnoc(m, ws, k); }
        FoldRows([], front + last, AddToSemanas);
        { FoldRowsAppend([], front, last, AddToSemanas); }
        FoldRows(FoldRows([], front, AddToSemanas), last, AddToSemanas);
        { WeeksFromRows(m, k); }
        FoldRows(ProjSemanasOf(m, ws[..k]), last, AddToSemanas);
        { WeekIsFresh(m, ws, n); WeekNode(m, ws[k], ProjSemanasOf(m, ws[..k])); }
        ProjSemanasOf(m, ws[..k]) + [ProjSemana(m, ws[k])];
        { ProjSemanasSnoc(m, ws, k); }
        ProjSemanasOf(m, ws[..k + 1]);
      }
    }
  }

  // Months.

  lemma {:induction false} MesFieldCommute(c: Mes, rows: seq<Row>)
    ensures FoldRows(c, rows, AddToMes) == c.(semanas := FoldRows(c.semanas, rows, AddToSemanas))
    decreases |rows|
  {
    if rows != [] {
      MesFieldCommute(AddToMes(c, rows[0]), rows[1..]);
    }
  }

  /** Rows for the last month of the list all land in that month. */
  lemma {:induction false} MesesIntoLast(ms: seq<Mes>, c: Mes, rows: seq<Row>)
    requires c.id !in MesIds(ms)
    requires forall i :: 0 <= i < |rows| ==> rows[i].mes_id == c.id
    ensures FoldRows(ms + [c], rows, AddToMeses) == ms + [FoldRows(c, rows, AddToMes)]
    decreases |rows|
  {
    if rows != [] {
      assert MesIds(ms + [c]) == MesIds(ms) + [c.id];
      IndexOfSnoc(MesIds(ms), c.id, c.id);
      assert AddToMeses(ms + [c], rows[0]) == ms + [AddToMes(c, rows[0])];
      MesesIntoLast(ms, AddToMes(c, rows[0]), rows[1..]);
    }
  }

  /** A new month with at least one week appends exactly that month, with its weeks. */
  lemma MonthNode(m: MonthRec, ms: seq<Mes>)
    requires |m.semanas| > 0 && m.mes_id !in MesIds(ms) && WeeksKeyed(m.semanas)
    ensures FoldRows(ms, MonthRows(m), AddToMeses) == ms + [ProjMes(m)]
  {
    var rows := MonthRows(m);
    MonthRowsEmptyIff(m);
    MonthRowsCarry(m);
    var r0 := rows[0];
    assert r0 in rows;
    var c := AddToMes(NewMes(r0), r0);
    assert AddToMeses(ms, r0) == ms + [c];
    forall i | 0 <= i < |rows[1..]|
      ensures rows[1..][i].mes_id == c.id
    {
      assert rows[1..][i] in rows;
    }
    MesesIntoLast(ms, c, rows[1..]);
    MesFieldCommute(NewMes(r0), rows);
    WeeksFromRows(m, |m.semanas|);
    assert m.semanas[..|m.semanas|] == m.semanas;
  }

  /** The n-th month of a keyed result is not among the nodes built for the ones before it. */
  lemma MonthIsFresh(data: seq<MonthRec>, n: nat)
    requires 0 < n <= |data| && Keyed(data)
    ensures |data[n - 1].semanas| > 0 && WeeksKeyed(data[n - 1].semanas)
    ensures data[n - 1].mes_id !in MesIds(Project(data[..n - 1]))
  {
    var before := Project(data[..n - 1]);
    assert MonthRecIds(data)[n - 1] == data[n - 1].mes_id;
    forall i | 0 <= i < |before|
      ensures MesIds(before)[i] != data[n - 1].mes_id
    {
      assert MesIds(before)[i] == MonthRecIds(data)[i];
    }
  }

  lemma {:induction false} MonthsFromRows(data: seq<MonthRec>, n: nat)
    requires n <= |data| && Keyed(data)
    ensures Assemble(Flattened(data[..n])) == Project(data[..n])
  {
    if n > 0 {
      var k := n - 1;
      var front, last := Flattened(data[..k]), MonthRows(data[k]);
      calc {
        Assemble(Flattened(data[..k + 1]));
        { FlattenedSnoc(data, k); }
        FoldRows([], front + last, AddToMeses);
        { FoldRowsAppend([], front, last, AddToMeses); }
        FoldRows(Assemble(front), last, AddToMeses);
        { MonthsFromRows(data, k); }
        FoldRows(Project(data[..k]), last, AddToMeses);
        { MonthIsFresh(data, n); MonthNode(data[k], Project(data[..k])); }
        Project(data[..k]) + [ProjMes(data[k])];
        { ProjectSnoc(data, k); }
        Project(data[..k + 1]);
      }
    }
  }

  /**
   * Round trip: the client assembler rebuilds, from the rows the structure
   * route emits, exactly the tree the query returned, whenever every month
   * has a week, sibling ids are distinct and activity, task, KPI and
   * evidence ids are truthy.
   */
  lemma AssembleFlattened(data: seq<MonthRec>)
    requires Keyed(data)
    ensures Assemble(Flattened(data)) == Project(data)
  {
    MonthsFromRows(data, |data|);
    assert data[..|data|] == data;
  }

  // What the round trip loses and what it collapses.

  lemma {:induction false} FlattenedAvoids(data: seq<MonthRec>, x: Value)
    requires forall j :: 0 <= j < |data| && data[j].semanas != [] ==> data[j].mes_id != x
    ensures x !in HierarchyFacts.MesColumn(Flattened(data))
    decreases |data|
  {
    if data != [] {
      var p := data[..|data| - 1];
      var last := data[|data| - 1];
      FlattenedAvoids(p, x);
      MonthRowsCarry(last);
      MesColumnAvoids(Flattened(p), MonthRows(last), x);
    }
  }

  lemma {:induction false} MesColumnAvoids(front: seq<Row>, back: seq<Row>, x: Value)
    requires x !in HierarchyFacts.MesColumn(front)
    requires forall r :: r in back ==> r.mes_id != x
    ensures x !in HierarchyFacts.MesColumn(front + back)
    decreases |back|
  {
    if back != [] {
      var b := back[..|back| - 1];
      assert back[|back| - 1] in back;
      assert (front + back)[..|front + back| - 1] == front + b;
      assert (front + back)[|front + back| - 1] == back[|back| - 1];
      MesColumnAvoids(front, b, x);
      assert HierarchyFacts.MesColumn(front + back)
          == HierarchyFacts.MesColumn(front + b) + [back[|back| - 1].mes_id];
    } else {
      assert front + back == front;
    }
  }

  /**
   * A month without weeks emits no row, so the assembled tree has no month
   * with its id: such a month does not survive the round trip.
   */
  lemma MonthWithoutWeeksIsLost(data: seq<MonthRec>, i: nat)
    requires i < |data| && data[i].semanas == [] && DistinctIds(MonthRecIds(data))
    ensures data[i].mes_id !in MesIds(Assemble(Flattened(data)))
  {
    var x := data[i].mes_id;
    forall j | 0 <= j < |data| && j != i
      ensures data[j].mes_id != x
    {
      if j < i {
        assert MonthRecIds(data)[j] != MonthRecIds(data)[i];
      } else {
        assert MonthRecIds(data)[i] != MonthRecIds(data)[j];
      }
    }
    FlattenedAvoids(data, x);
    HierarchyFacts.AssembledMonths(Flattened(data));
    FirstOccurrencesSpec(HierarchyFacts.MesColumn(Flattened(data)));
  }

  /**
   * Two KPIs and three evidence requirements give six rows, which the
   * assembler folds back into one task with two KPIs and three requirements.
   */
  lemma FanOutCollapses(m: MonthRec, w: WeekRec, a: ActivityRec, t: TaskRec, ts: seq<Task>)
    requires |t.kpis| == 2 && |t.evidencias_requeridas| == 3 && LeavesKeyed(t)
    requires Truthy(t.tarea_id) && t.tarea_id !in TaskIds(ts)
    ensures |TaskRows(m, w, a, t)| == 6
    ensures var after := FoldRows(ts, TaskRows(m, w, a, t), AddToTasks);
      |after| == |ts| + 1 && |after[|ts|].kpis| == 2 && |after[|ts|].evidencias| == 3
  {
    TwoByThreeFanOut(m, w, a, t);
    TaskNode(m, w, a, t, ts);
  }
}
