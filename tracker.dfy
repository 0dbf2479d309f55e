/**
 * The local week tracker of src/App.tsx: a flat list of 24 weeks with two
 * tasks each, edited task by task and closed week by week behind two gates
 * (the previous week must be closed, critical KPIs must be filled in), and
 * the dashboard figures computed from it.
 */
module Tracker {
  import opened JsValues

  datatype TrackerTask = TrackerTask(
    id: string, desc: string, completed: bool, kpiName: string,
    kpiValue: string, critical: bool, evidence: string)

  datatype Week = Week(id: int, month: int, title: string, closed: bool, tasks: seq<TrackerTask>)

  // ---------------------------------------------------------------------
  // generateInitialData (src/App.tsx:19-34)
  // ---------------------------------------------------------------------

  /** `Math.ceil(i / 4)` for a positive week number. */
  function MonthOf(i: nat): nat
  {
    (i + 3) / 4
  }

  function InitialWeek(i: nat): Week
  {
    var n := DecimalString(i);
    Week(i, MonthOf(i), "Semana " + n + ": Ejecución Técnica", false, [
      TrackerTask(n + "-1", "Actividad Técnica Crítica S" + n, false, "RMSE / Precisión", "", true, ""),
      TrackerTask(n + "-2", "Documentación de Avance S" + n, false, "Páginas", "", false, "")
    ])
  }

  /** The 24 weeks the tracker starts with when nothing is saved. */
  function InitialData(): seq<Week>
  {
    seq(24, k requires 0 <= k < 24 => InitialWeek(k + 1))
  }

  /** The counting loop that pushes week i for i = 1..24. */
  method GenerateInitialData() returns (weeks: seq<Week>)
    ensures weeks == InitialData()
  {
    weeks := [];
    for i := 1 to 25
      invariant |weeks| == i - 1
      invariant forall k :: 0 <= k < |weeks| ==> weeks[k] == InitialWeek(k + 1)
    {
      weeks := weeks + [InitialWeek(i)];
    }
  }

  // ---------------------------------------------------------------------
  // Lookup: `weeks.find(w => w.id === id)`
  // ---------------------------------------------------------------------

  /** Index of the first week with this id, or |weeks| when there is none. */
  function WeekIndex(weeks: seq<Week>, id: int): (k: nat)
    ensures k <= |weeks|
    ensures k < |weeks| ==> weeks[k].id == id
    ensures forall j :: 0 <= j < k ==> weeks[j].id != id
  {
    if weeks == [] || weeks[0].id == id then 0 else 1 + WeekIndex(weeks[1..], id)
  }

  predicate HasWeek(weeks: seq<Week>, id: int)
  {
    exists i :: 0 <= i < |weeks| && weeks[i].id == id
  }

  lemma WeekIndexFound(weeks: seq<Week>, id: int)
    ensures WeekIndex(weeks, id) < |weeks| <==> HasWeek(weeks, id)
  {
    if WeekIndex(weeks, id) == |weeks| {
      forall i | 0 <= i < |weeks|
        ensures weeks[i].id != id
      {
      }
    }
  }

  // ---------------------------------------------------------------------
  // updateTask (src/App.tsx:50-58)
  // ---------------------------------------------------------------------

  /** The keys present in `fields`; `{ ...t, ...fields }` overwrites exactly those. */
  datatype TaskPatch = TaskPatch(
    id: Option<string>, desc: Option<string>, completed: Option<bool>,
    kpiName: Option<string>, kpiValue: Option<string>, critical: Option<bool>,
    evidence: Option<string>)

  function Pick<T>(o: Option<T>, keep: T): T
  {
    if o.Some? then o.value else keep
  }

  function Overlay(t: TrackerTask, f: TaskPatch): TrackerTask
  {
    TrackerTask(Pick(f.id, t.id), Pick(f.desc, t.desc), Pick(f.completed, t.completed),
      Pick(f.kpiName, t.kpiName), Pick(f.kpiValue, t.kpiValue), Pick(f.critical, t.critical),
      Pick(f.evidence, t.evidence))
  }

  function PatchTasks(tasks: seq<TrackerTask>, taskId: string, f: TaskPatch): seq<TrackerTask>
  {
    seq(|tasks|, j requires 0 <= j < |tasks| => if tasks[j].id == taskId then Overlay(tasks[j], f) else tasks[j])
  }

  /** Overlay `f` on every task with `taskId` in every week with `weekId`; nothing else changes. */
  function UpdateTask(weeks: seq<Week>, weekId: int, taskId: string, f: TaskPatch): (r: seq<Week>)
    ensures |r| == |weeks|
    ensures forall i :: 0 <= i < |r| ==>
      r[i].id == weeks[i].id && r[i].month == weeks[i].month && r[i].title == weeks[i].title
      && r[i].closed == weeks[i].closed && |r[i].tasks| == |weeks[i].tasks|
    ensures forall i, j :: 0 <= i < |r| && 0 <= j < |r[i].tasks| ==>
      r[i].tasks[j] == if weeks[i].id == weekId && weeks[i].tasks[j].id == taskId
                       then Overlay(weeks[i].tasks[j], f) else weeks[i].tasks[j]
  {
    seq(|weeks|, i requires 0 <= i < |weeks| =>
      if weeks[i].id == weekId then weeks[i].(tasks := PatchTasks(weeks[i].tasks, taskId, f)) else weeks[i])
  }

  // ---------------------------------------------------------------------
  // closeWeek (src/App.tsx:60-81)
  // ---------------------------------------------------------------------

  /** What closeWeek does: the new list, or the check that stopped it. */
  datatype CloseResult =
    | Closed(weeks: seq<Week>)
    | NoSuchWeek
    | PreviousWeekOpen
    | CriticalKpisPending

  /** `prevWeek && !prevWeek.closed` for `prevWeek = find(id - 1)`. */
  predicate PreviousOpen(weeks: seq<Week>, id: int)
  {
    var k := WeekIndex(weeks, id - 1);
    k < |weeks| && !weeks[k].closed
  }

  /** `tasks.some(t => t.critical && !t.kpiValue)` */
  predicate CriticalPending(tasks: seq<TrackerTask>)
  {
    exists j :: 0 <= j < |tasks| && tasks[j].critical && tasks[j].kpiValue == ""
  }

  function MarkClosed(weeks: seq<Week>, id: int): seq<Week>
  {
    seq(|weeks|, i requires 0 <= i < |weeks| => if weeks[i].id == id then weeks[i].(closed := true) else weeks[i])
  }

  function CloseWeek(weeks: seq<Week>, id: int): (r: CloseResult)
    ensures r == NoSuchWeek <==> !HasWeek(weeks, id)
    ensures r == PreviousWeekOpen <==> HasWeek(weeks, id) && id > 1 && PreviousOpen(weeks, id)
    ensures r == CriticalKpisPending <==>
      HasWeek(weeks, id) && !(id > 1 && PreviousOpen(weeks, id))
      && CriticalPending(weeks[WeekIndex(weeks, id)].tasks)
    ensures r.Closed? ==> |r.weeks| == |weeks| && forall i :: 0 <= i < |weeks| ==>
      r.weeks[i] == if weeks[i].id == id then weeks[i].(closed := true) else weeks[i]
  {
    WeekIndexFound(weeks, id);
    var k := WeekIndex(weeks, id);
    if k == |weeks| then NoSuchWeek
    else if id > 1 && PreviousOpen(weeks, id) then PreviousWeekOpen
    else if CriticalPending(weeks[k].tasks) then CriticalKpisPending
    else Closed(MarkClosed(weeks, id))
  }

  /** The list after closeWeek: unchanged when a check fails (the alert branch). */
  function AfterClose(weeks: seq<Week>, id: int): seq<Week>
  {
    match CloseWeek(weeks, id)
    case Closed(ws) => ws
    case _ => weeks
  }

  // ---------------------------------------------------------------------
  // Dashboard figures (src/App.tsx:101-103, 170, 206)
  // ---------------------------------------------------------------------

  function CountCompleted(tasks: seq<TrackerTask>): nat
  {
    if tasks == [] then 0
    else CountCompleted(tasks[..|tasks| - 1]) + if tasks[|tasks| - 1].completed then 1 else 0
  }

  /** `weeks.reduce((acc, w) => acc + w.tasks.length, 0)` */
  function TotalTasks(weeks: seq<Week>): nat
  {
    if weeks == [] then 0 else TotalTasks(weeks[..|weeks| - 1]) + |weeks[|weeks| - 1].tasks|
  }

  /** `weeks.reduce((acc, w) => acc + w.tasks.filter(t => t.completed).length, 0)` */
  function CompletedTasks(weeks: seq<Week>): nat
  {
    if weeks == [] then 0 else CompletedTasks(weeks[..|weeks| - 1]) + CountCompleted(weeks[|weeks| - 1].tasks)
  }

  /** `Math.round(100 * c / t)` on exact rationals: floor(100c/t + 1/2). */
  function RoundPercent(c: nat, t: nat): nat
    requires t > 0
  {
    (200 * c + t) / (2 * t)
  }

  function Progress(weeks: seq<Week>): nat
  {
    var t := TotalTasks(weeks);
    if t > 0 then RoundPercent(CompletedTasks(weeks), t) else 0
  }

  /** `weeks.filter(w => w.month === m)` */
  function WeeksOfMonth(weeks: seq<Week>, m: int): seq<Week>
  {
    if weeks == [] then []
    else WeeksOfMonth(weeks[..|weeks| - 1], m) + if weeks[|weeks| - 1].month == m then [weeks[|weeks| - 1]] else []
  }

  /** `weeks.filter(w => w.month === m).every(w => w.closed)` */
  predicate IsMonthDone(weeks: seq<Week>, m: int)
  {
    var ws := WeeksOfMonth(weeks, m);
    forall i :: 0 <= i < |ws| ==> ws[i].closed
  }

  /** `id > 1 && !weeks.find(w => w.id === id - 1)?.closed` */
  predicate IsLocked(weeks: seq<Week>, id: int)
  {
    var k := WeekIndex(weeks, id - 1);
    id > 1 && !(k < |weeks| && weeks[k].closed)
  }
}
