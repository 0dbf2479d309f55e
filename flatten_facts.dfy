/**
 * Properties of the flat rows the structure handler emits: how many rows a
 * task, activity, week and month produce, in which order, which placeholder
 * rows appear, and which columns every row of a node carries.
 */
module FlattenFacts {
  import opened JsValues
  import opened Rows
  import opened Flatten
  import opened Arith

  function Max1(n: nat): nat
  {
    if n == 0 then 1 else n
  }

  // Columns a row carries for each level of the tree.

  predicate MonthCols(r: Row, m: MonthRec)
  {
    r.mes_id == m.mes_id && r.numero_mes == m.numero_mes && r.mes_nombre == m.mes_nombre
  }

  predicate WeekCols(r: Row, w: WeekRec)
  {
    r.semana_id == w.semana_id && r.numero_semana == w.numero_semana
    && r.semana_titulo == w.semana_titulo && r.semana_closed == w.semana_closed
  }

  predicate ActivityCols(r: Row, a: ActivityRec)
  {
    r.actividad_id == a.actividad_id && r.actividad_desc == a.actividad_desc
    && r.es_critica == a.es_critica && r.actividad_tipo == a.actividad_tipo
  }

  predicate TaskCols(r: Row, t: TaskRec)
  {
    r.tarea_id == t.tarea_id && r.tarea_desc == t.tarea_desc && r.tarea_completada == t.tarea_completada
  }

  /** No activity, task, KPI or evidence column is set. */
  predicate NothingBelowWeek(r: Row)
  {
    r.actividad_id == Undefined && r.actividad_desc == Undefined && r.es_critica == Undefined
    && r.actividad_tipo == Undefined && NothingBelowActivity(r)
  }

  /** No task, KPI or evidence column is set. */
  predicate NothingBelowActivity(r: Row)
  {
    r.tarea_id == Undefined && r.tarea_desc == Undefined && r.tarea_completada == Undefined
    && NoLeafCols(r)
  }

  predicate NoLeafCols(r: Row)
  {
    r.kpi_id == Undefined && r.nombre_metrica == Undefined && r.tipo_dato == Undefined
    && r.meta_objetivo == Undefined && r.valor_actual == Undefined && r.es_obligatorio == Undefined
    && r.evidence_req_id == Undefined && r.evidence_nombre == Undefined
    && r.es_obligatoria == Undefined && r.evidence_value == Undefined
  }

  /** The KPI columns of a row built from slot `k` (Undefined for the `{}` slot). */
  predicate KpiColsOf(r: Row, k: Option<KpiRec>)
  {
    match k
    case None =>
      r.kpi_id == Undefined && r.nombre_metrica == Undefined && r.tipo_dato == Undefined
      && r.meta_objetivo == Undefined && r.valor_actual == Undefined && r.es_obligatorio == Undefined
    case Some(kr) =>
      r.kpi_id == kr.kpi_id && r.nombre_metrica == kr.nombre_metrica && r.tipo_dato == kr.tipo_dato
      && r.meta_objetivo == kr.meta_objetivo && r.valor_actual == kr.valor_actual
      && r.es_obligatorio == kr.es_obligatorio
  }

  /** The evidence columns of a row built from slot `e` (Undefined for the `{}` slot). */
  predicate EvidenceColsOf(r: Row, e: Option<EvidenceRec>)
  {
    match e
    case None =>
      r.evidence_req_id == Undefined && r.evidence_nombre == Undefined
      && r.es_obligatoria == Undefined && r.evidence_value == Undefined
    case Some(er) =>
      r.evidence_req_id == er.evidence_req_id && r.evidence_nombre == er.evidence_nombre
      && r.es_obligatoria == er.es_obligatoria && r.evidence_value == er.evidence_value
  }

  /** The row pushed for KPI slot `k` and evidence slot `e` of the task. */
  predicate LeafRowOf(r: Row, m: MonthRec, w: WeekRec, a: ActivityRec, t: TaskRec,
                      k: Option<KpiRec>, e: Option<EvidenceRec>)
  {
    MonthCols(r, m) && WeekCols(r, w) && ActivityCols(r, a) && TaskCols(r, t)
    && KpiColsOf(r, k) && EvidenceColsOf(r, e)
  }

  lemma {:induction false} EvidenceRowsAt(base: Row, k: Option<KpiRec>, evs: seq<Option<EvidenceRec>>)
    ensures |EvidenceRows(base, k, evs)| == |evs|
    ensures forall j :: 0 <= j < |evs| ==>
      EvidenceRows(base, k, evs)[j] == SpreadEvidence(SpreadKpi(base, k), evs[j])
    decreases |evs|
  {
    if evs != [] {
      var p := evs[..|evs| - 1];
      EvidenceRowsAt(base, k, p);
      forall j | 0 <= j < |evs|
        ensures EvidenceRows(base, k, evs)[j] == SpreadEvidence(SpreadKpi(base, k), evs[j])
      {
        if j < |p| {
          assert evs[j] == p[j];
        }
      }
    }
  }

  lemma MulPred(n: nat, e: nat)
    requires n > 0
    ensures n * e == (n - 1) * e + e
  {
  }

  lemma MulStep(i: nat, n: nat, e: nat, j: nat)
    requires i < n && j < e
    ensures i * e + j < n * e
  {
    MulMono(i + 1, n, e);
    assert (i + 1) * e == i * e + e;
  }

  /** Position of cell (i, j) in a row-major grid with `width` columns. */
  function Pos(i: nat, j: nat, width: nat): nat
  {
    i * width + j
  }

  /**
   * The KPI-major product: the row for KPI slot i and evidence slot j sits at
   * index i * |evs| + j, and there are exactly |ks| * |evs| rows.
   */
  lemma {:induction false} KpiRowsAt(base: Row, ks: seq<Option<KpiRec>>, evs: seq<Option<EvidenceRec>>)
    ensures |KpiRows(base, ks, evs)| == |ks| * |evs|
    ensures forall i, j :: 0 <= i < |ks| && 0 <= j < |evs| ==>
      Pos(i, j, |evs|) < |KpiRows(base, ks, evs)|
      && KpiRows(base, ks, evs)[Pos(i, j, |evs|)] == SpreadEvidence(SpreadKpi(base, ks[i]), evs[j])
    decreases |ks|
  {
    if ks != [] {
      var n := |ks|;
      var e := |evs|;
      var p := ks[..n - 1];
      var front := KpiRows(base, p, evs);
      var back := EvidenceRows(base, ks[n - 1], evs);
      var rows := KpiRows(base, ks, evs);
      assert rows == front + back;
      KpiRowsAt(base, p, evs);
      EvidenceRowsAt(base, ks[n - 1], evs);
      assert |front| == (n - 1) * e;
      MulPred(n, e);
      forall i, j | 0 <= i < n && 0 <= j < e
        ensures Pos(i, j, e) < |rows| && rows[Pos(i, j, e)] == SpreadEvidence(SpreadKpi(base, ks[i]), evs[j])
      {
        var x := Pos(i, j, e);
        if i < n - 1 {
          MulStep(i, n - 1, e, j);
          assert ks[i] == p[i];
          assert rows[x] == front[x];
        } else {
          assert x == |front| + j;
          assert rows[x] == back[j];
        }
      }
    }
  }

  lemma SlotCounts(t: TaskRec)
    ensures |KpiSlots(t)| == Max1(|t.kpis|)
    ensures |EvidenceSlots(t)| == Max1(|t.evidencias_requeridas|)
  {
  }

  lemma SpreadCols(m: MonthRec, w: WeekRec, a: ActivityRec, t: TaskRec,
                   k: Option<KpiRec>, e: Option<EvidenceRec>)
    ensures LeafRowOf(SpreadEvidence(SpreadKpi(TaskBase(m, w, a, t), k), e), m, w, a, t, k, e)
  {
  }

  /**
   * A task emits max(1, |kpis|) * max(1, |evidence|) rows, the row for the
   * i-th KPI slot and j-th evidence slot at index i * max(1, |evidence|) + j.
   */
  lemma TaskRowsShape(m: MonthRec, w: WeekRec, a: ActivityRec, t: TaskRec)
    ensures |TaskRows(m, w, a, t)| == Max1(|t.kpis|) * Max1(|t.evidencias_requeridas|)
    ensures forall i, j :: 0 <= i < Max1(|t.kpis|) && 0 <= j < Max1(|t.evidencias_requeridas|) ==>
      Pos(i, j, Max1(|t.evidencias_requeridas|)) < |TaskRows(m, w, a, t)|
      && LeafRowOf(TaskRows(m, w, a, t)[Pos(i, j, Max1(|t.evidencias_requeridas|))], m, w, a, t,
                   KpiSlots(t)[i], EvidenceSlots(t)[j])
  {
    SlotCounts(t);
    KpiRowsAt(TaskBase(m, w, a, t), KpiSlots(t), EvidenceSlots(t));
    forall i, j | 0 <= i < Max1(|t.kpis|) && 0 <= j < Max1(|t.evidencias_requeridas|)
      ensures Pos(i, j, Max1(|t.evidencias_requeridas|)) < |TaskRows(m, w, a, t)|
        && LeafRowOf(TaskRows(m, w, a, t)[Pos(i, j, Max1(|t.evidencias_requeridas|))], m, w, a, t,
                     KpiSlots(t)[i], EvidenceSlots(t)[j])
    {
      SpreadCols(m, w, a, t, KpiSlots(t)[i], EvidenceSlots(t)[j]);
    }
  }

  /** Two KPIs and three evidence requirements give six rows. */
  lemma TwoByThreeFanOut(m: MonthRec, w: WeekRec, a: ActivityRec, t: TaskRec)
    requires |t.kpis| == 2 && |t.evidencias_requeridas| == 3
    ensures |TaskRows(m, w, a, t)| == 6
    ensures LeafRowOf(TaskRows(m, w, a, t)[4], m, w, a, t,
                      Some(t.kpis[1]), Some(t.evidencias_requeridas[1]))
  {
    TaskRowsShape(m, w, a, t);
    assert Max1(|t.kpis|) == 2 && Max1(|t.evidencias_requeridas|) == 3;
    assert Pos(1, 1, 3) == 4;
    assert KpiSlots(t)[1] == Some(t.kpis[1]);
    assert EvidenceSlots(t)[1] == Some(t.evidencias_requeridas[1]);
  }

  /** A task without KPIs or evidence still emits one row, with no leaf columns. */
  lemma BareTaskRow(m: MonthRec, w: WeekRec, a: ActivityRec, t: TaskRec)
    requires |t.kpis| == 0 && |t.evidencias_requeridas| == 0
    ensures |TaskRows(m, w, a, t)| == 1
    ensures LeafRowOf(TaskRows(m, w, a, t)[0], m, w, a, t, None, None)
    ensures NoLeafCols(TaskRows(m, w, a, t)[0])
  {
    TaskRowsShape(m, w, a, t);
  }

  /** An activity without tasks emits exactly one row, with nothing below the activity. */
  lemma ActivityPlaceholder(m: MonthRec, w: WeekRec, a: ActivityRec)
    requires |a.tareas| == 0
    ensures |ActivityRows(m, w, a)| == 1
    ensures var r := ActivityRows(m, w, a)[0];
      MonthCols(r, m) && WeekCols(r, w) && ActivityCols(r, a) && NothingBelowActivity(r)
  {
    assert ActivityRows(m, w, a) == [ActivityBase(m, w, a)];
  }

  /** A week without activities emits exactly one row, with nothing below the week. */
  lemma WeekPlaceholder(m: MonthRec, w: WeekRec)
    requires |w.actividades| == 0
    ensures |WeekRows(m, w)| == 1
    ensures var r := WeekRows(m, w)[0];
      MonthCols(r, m) && WeekCols(r, w) && NothingBelowWeek(r)
  {
    assert WeekRows(m, w) == [WeekBase(m, w)];
  }

  lemma TaskRowsNonEmpty(m: MonthRec, w: WeekRec, a: ActivityRec, t: TaskRec)
    ensures |TaskRows(m, w, a, t)| > 0
  {
    TaskRowsShape(m, w, a, t);
  }

  /** Every activity emits at least one row: the placeholder or its tasks' rows. */
  lemma {:induction false} ActivityRowsNonEmpty(m: MonthRec, w: WeekRec, a: ActivityRec)
    ensures |ActivityRows(m, w, a)| > 0
  {
    var ts := a.tareas;
    if |ts| > 0 {
      TaskRowsNonEmpty(m, w, a, ts[|ts| - 1]);
      assert |TasksRows(m, w, a, ts)| >= |TaskRows(m, w, a, ts[|ts| - 1])|;
    }
  }

  /** Every week emits at least one row: the placeholder or its activities' rows. */
  lemma {:induction false} WeekRowsNonEmpty(m: MonthRec, w: WeekRec)
    ensures |WeekRows(m, w)| > 0
  {
    var acts := w.actividades;
    if |acts| > 0 {
      ActivityRowsNonEmpty(m, w, acts[|acts| - 1]);
      assert |ActivitiesRows(m, w, acts)| >= |ActivityRows(m, w, acts[|acts| - 1])|;
    }
  }

  /** A month emits rows exactly when it has a week: a month without weeks vanishes. */
  lemma {:induction false} MonthRowsEmptyIff(m: MonthRec)
    ensures MonthRows(m) == [] <==> m.semanas == []
  {
    var ws := m.semanas;
    if |ws| > 0 {
      WeekRowsNonEmpty(m, ws[|ws| - 1]);
      assert |WeeksRows(m, ws)| >= |WeekRows(m, ws[|ws| - 1])|;
    }
  }

  // Every row a node emits carries the node's columns and its ancestors'.

  /** The rows of one KPI slot carry the task's path and that slot's KPI columns. */
  lemma EvidenceRowsCarry(m: MonthRec, w: WeekRec, a: ActivityRec, t: TaskRec,
                          k: Option<KpiRec>, evs: seq<Option<EvidenceRec>>)
    ensures forall r :: r in EvidenceRows(TaskBase(m, w, a, t), k, evs) ==>
      MonthCols(r, m) && WeekCols(r, w) && ActivityCols(r, a) && TaskCols(r, t) && KpiColsOf(r, k)
  {
    var rows := EvidenceRows(TaskBase(m, w, a, t), k, evs);
    EvidenceRowsAt(TaskBase(m, w, a, t), k, evs);
    forall r | r in rows
      ensures MonthCols(r, m) && WeekCols(r, w) && ActivityCols(r, a) && TaskCols(r, t) && KpiColsOf(r, k)
    {
      var j :| 0 <= j < |rows| && rows[j] == r;
      SpreadCols(m, w, a, t, k, evs[j]);
    }
  }

  lemma {:induction false} KpiRowsCarry(m: MonthRec, w: WeekRec, a: ActivityRec, t: TaskRec,
                                        ks: seq<Option<KpiRec>>, evs: seq<Option<EvidenceRec>>)
    ensures forall r :: r in KpiRows(TaskBase(m, w, a, t), ks, evs) ==>
      MonthCols(r, m) && WeekCols(r, w) && ActivityCols(r, a) && TaskCols(r, t)
    decreases |ks|
  {
    if ks != [] {
      KpiRowsCarry(m, w, a, t, ks[..|ks| - 1], evs);
      EvidenceRowsCarry(m, w, a, t, ks[|ks| - 1], evs);
    }
  }

  lemma TaskRowsCarry(m: MonthRec, w: WeekRec, a: ActivityRec, t: TaskRec)
    ensures forall r :: r in TaskRows(m, w, a, t) ==>
      MonthCols(r, m) && WeekCols(r, w) && ActivityCols(r, a) && TaskCols(r, t)
  {
    KpiRowsCarry(m, w, a, t, KpiSlots(t), EvidenceSlots(t));
  }

  lemma {:induction false} TasksRowsCarry(m: MonthRec, w: WeekRec, a: ActivityRec, ts: seq<TaskRec>)
    ensures forall r :: r in TasksRows(m, w, a, ts) ==> MonthCols(r, m) && WeekCols(r, w) && ActivityCols(r, a)
    decreases |ts|
  {
    if ts != [] {
      TasksRowsCarry(m, w, a, ts[..|ts| - 1]);
      TaskRowsCarry(m, w, a, ts[|ts| - 1]);
    }
  }

  /** Every row of an activity, placeholder included, carries the activity's path. */
  lemma ActivityRowsCarry(m: MonthRec, w: WeekRec, a: ActivityRec)
    ensures forall r :: r in ActivityRows(m, w, a) ==> MonthCols(r, m) && WeekCols(r, w) && ActivityCols(r, a)
  {
    TasksRowsCarry(m, w, a, a.tareas);
  }

  lemma {:induction false} ActivitiesRowsCarry(m: MonthRec, w: WeekRec, acts: seq<ActivityRec>)
    ensures forall r :: r in ActivitiesRows(m, w, acts) ==> MonthCols(r, m) && WeekCols(r, w)
    decreases |acts|
  {
    if acts != [] {
      ActivitiesRowsCarry(m, w, acts[..|acts| - 1]);
      ActivityRowsCarry(m, w, acts[|acts| - 1]);
    }
  }

  /** Every row of a week, placeholder included, carries the week's path. */
  lemma WeekRowsCarry(m: MonthRec, w: WeekRec)
    ensures forall r :: r in WeekRows(m, w) ==> MonthCols(r, m) && WeekCols(r, w)
  {
    ActivitiesRowsCarry(m, w, w.actividades);
  }

  lemma {:induction false} WeeksRowsCarry(m: MonthRec, ws: seq<WeekRec>)
    ensures forall r :: r in WeeksRows(m, ws) ==> MonthCols(r, m)
    decreases |ws|
  {
    if ws != [] {
      WeeksRowsCarry(m, ws[..|ws| - 1]);
      WeekRowsCarry(m, ws[|ws| - 1]);
    }
  }

  lemma MonthRowsCarry(m: MonthRec)
    ensures forall r :: r in MonthRows(m) ==> MonthCols(r, m)
  {
    WeeksRowsCarry(m, m.semanas);
  }
}
