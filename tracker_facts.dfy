/** What the week tracker of src/App.tsx guarantees, over single steps and whole sessions. */
module TrackerFacts {
  import opened JsValues
  import opened Tracker
  import opened Arith

  // ---------------------------------------------------------------------
  // Initial data
  // ---------------------------------------------------------------------

  /** 24 open weeks numbered 1..24, four per month over months 1..6, two fresh tasks each, the first critical. */
  lemma InitialDataShape()
    ensures |InitialData()| == 24
    ensures forall k :: 0 <= k < 24 ==>
      var w := InitialData()[k];
      && w.id == k + 1 && 1 <= w.month <= 6 && w.month == MonthOf(k + 1)
      && !w.closed && |w.tasks| == 2
      && w.tasks[0].critical && !w.tasks[1].critical
      && !w.tasks[0].completed && !w.tasks[1].completed
      && w.tasks[0].kpiValue == "" && w.tasks[1].kpiValue == ""
  {
    forall k | 0 <= k < 24
      ensures 1 <= InitialData()[k].month <= 6
    {
      assert 4 <= k + 4 <= 27;
    }
  }

  /** Week 1 cannot be closed until its critical KPI has a value. */
  lemma FirstCloseNeedsKpi()
    ensures CloseWeek(InitialData(), 1) == CriticalKpisPending
  {
    var weeks := InitialData();
    assert weeks[0].id == 1;
    assert HasWeek(weeks, 1);
    assert weeks[WeekIndex(weeks, 1)].tasks[0].critical;
  }

  /** Filling in the critical KPI of week 1 is enough to close it. */
  lemma FirstCloseAfterKpi()
    ensures var edited := UpdateTask(InitialData(), 1, "1-1",
      TaskPatch(None, None, None, None, Some("0.92"), None, None));
      CloseWeek(edited, 1).Closed?
  {
    var edited := UpdateTask(InitialData(), 1, "1-1",
      TaskPatch(None, None, None, None, Some("0.92"), None, None));
    assert InitialData()[0].tasks[0].id == "1-1";
    assert InitialData()[0].tasks[1].id != "1-1" by {
      assert InitialData()[0].tasks[1].id[2] == '2';
    }
    assert edited[0].id == 1;
    assert HasWeek(edited, 1);
    assert WeekIndex(edited, 1) == 0;
    assert !CriticalPending(edited[0].tasks);
  }

  // ---------------------------------------------------------------------
  // closeWeek
  // ---------------------------------------------------------------------

  /** A week whose predecessor is missing passes the sequential gate. */
  lemma MissingPredecessorPasses(weeks: seq<Week>, id: int)
    requires HasWeek(weeks, id)
    requires !HasWeek(weeks, id - 1)
    ensures CloseWeek(weeks, id) != PreviousWeekOpen
  {
    WeekIndexFound(weeks, id - 1);
  }

  /** Every week with `id` is closed: closing it again changes nothing, whatever the gates say. */
  lemma ReCloseIsNoop(weeks: seq<Week>, id: int)
    requires forall i :: 0 <= i < |weeks| && weeks[i].id == id ==> weeks[i].closed
    ensures AfterClose(weeks, id) == weeks
  {
    var r := CloseWeek(weeks, id);
    if r.Closed? {
      assert r.weeks == weeks;
    }
  }

  /** A successful close can be repeated without effect. */
  lemma CloseIdempotent(weeks: seq<Week>, id: int)
    ensures AfterClose(AfterClose(weeks, id), id) == AfterClose(weeks, id)
  {
    var once := AfterClose(weeks, id);
    if CloseWeek(weeks, id).Closed? {
      forall i | 0 <= i < |once| && once[i].id == id
        ensures once[i].closed
      {
      }
      ReCloseIsNoop(once, id);
    }
  }

  // ---------------------------------------------------------------------
  // updateTask
  // ---------------------------------------------------------------------

  /** Applying the same field merge twice is the same as applying it once. */
  lemma UpdateTaskIdempotent(weeks: seq<Week>, weekId: int, taskId: string, f: TaskPatch)
    ensures UpdateTask(UpdateTask(weeks, weekId, taskId, f), weekId, taskId, f)
         == UpdateTask(weeks, weekId, taskId, f)
  {
    var once := UpdateTask(weeks, weekId, taskId, f);
    var twice := UpdateTask(once, weekId, taskId, f);
    forall i | 0 <= i < |twice|
      ensures twice[i] == once[i]
    {
      forall j | 0 <= j < |twice[i].tasks|
        ensures twice[i].tasks[j] == once[i].tasks[j]
      {
        var t := weeks[i].tasks[j];
        if weeks[i].id == weekId && t.id == taskId {
          assert once[i].tasks[j] == Overlay(t, f);
        }
      }
      assert twice[i].tasks == once[i].tasks;
    }
  }

  /** A merge with no fields leaves the weeks as they were. */
  lemma EmptyPatchIsNoop(weeks: seq<Week>, weekId: int, taskId: string)
    ensures UpdateTask(weeks, weekId, taskId, TaskPatch(None, None, None, None, None, None, None)) == weeks
  {
    var r := UpdateTask(weeks, weekId, taskId, TaskPatch(None, None, None, None, None, None, None));
    forall i | 0 <= i < |r|
      ensures r[i] == weeks[i]
    {
      assert r[i].tasks == weeks[i].tasks;
    }
  }

  // ---------------------------------------------------------------------
  // Sessions: any sequence of edits and close attempts
  // ---------------------------------------------------------------------

  /** A user action on the week list. */
  datatype Action = Edit(weekId: int, taskId: string, fields: TaskPatch) | Close(id: int)

  function Step(weeks: seq<Week>, a: Action): seq<Week>
  {
    match a
    case Edit(w, t, f) => UpdateTask(weeks, w, t, f)
    case Close(id) => AfterClose(weeks, id)
  }

  function Run(weeks: seq<Week>, actions: seq<Action>): seq<Week>
    decreases |actions|
  {
    if actions == [] then weeks else Run(Step(weeks, actions[0]), actions[1..])
  }

  /** The week list keeps its length, ids, months and task counts, and a closed week is never reopened. */
  predicate Evolves(before: seq<Week>, after: seq<Week>)
  {
    && |after| == |before|
    && forall i :: 0 <= i < |before| ==>
      && after[i].id == before[i].id && after[i].month == before[i].month
      && |after[i].tasks| == |before[i].tasks|
      && (before[i].closed ==> after[i].closed)
  }

  lemma StepEvolves(weeks: seq<Week>, a: Action)
    ensures Evolves(weeks, Step(weeks, a))
  {
  }

  lemma {:induction false} RunEvolves(weeks: seq<Week>, actions: seq<Action>)
    ensures Evolves(weeks, Run(weeks, actions))
    decreases |actions|
  {
    if actions != [] {
      var next := Step(weeks, actions[0]);
      StepEvolves(weeks, actions[0]);
      RunEvolves(next, actions[1..]);
    }
  }

  // ---------------------------------------------------------------------
  // Progress
  // ---------------------------------------------------------------------

  predicate AllCompleted(weeks: seq<Week>)
  {
    forall i, j :: 0 <= i < |weeks| && 0 <= j < |weeks[i].tasks| ==> weeks[i].tasks[j].completed
  }

  predicate NoneCompleted(weeks: seq<Week>)
  {
    forall i, j :: 0 <= i < |weeks| && 0 <= j < |weeks[i].tasks| ==> !weeks[i].tasks[j].completed
  }

  lemma {:induction false} CountCompletedFacts(ts: seq<TrackerTask>)
    ensures CountCompleted(ts) <= |ts|
    ensures CountCompleted(ts) == |ts| <==> forall j :: 0 <= j < |ts| ==> ts[j].completed
    ensures CountCompleted(ts) == 0 <==> forall j :: 0 <= j < |ts| ==> !ts[j].completed
  {
    if ts != [] {
      var p := ts[..|ts| - 1];
      CountCompletedFacts(p);
      assert forall j :: 0 <= j < |p| ==> p[j] == ts[j];
    }
  }

  /** The completed count never exceeds the total, equals it exactly when every task is done, and is 0 exactly when none is. */
  lemma {:induction false} CompletedTasksFacts(weeks: seq<Week>)
    ensures CompletedTasks(weeks) <= TotalTasks(weeks)
    ensures CompletedTasks(weeks) == TotalTasks(weeks) <==> AllCompleted(weeks)
    ensures CompletedTasks(weeks) == 0 <==> NoneCompleted(weeks)
  {
    if weeks != [] {
      var p := weeks[..|weeks| - 1];
      var last := weeks[|weeks| - 1];
      CompletedTasksFacts(p);
      CountCompletedFacts(last.tasks);
      assert forall i :: 0 <= i < |p| ==> p[i] == weeks[i];
    }
  }

  lemma DivBelow(n: nat, d: nat, m: nat)
    requires d > 0 && n < m * d
    ensures n / d < m
  {
    var q := n / d;
    assert n == q * d + n % d;
  }

  lemma DivAtLeast(n: nat, d: nat, m: nat)
    requires d > 0 && m * d <= n
    ensures n / d >= m
  {
    var q := n / d;
    assert n == q * d + n % d;
    if q < m {
      MulMono(q + 1, m, d);
    }
  }

  /** Progress is a percentage, and 0 when there are no tasks. */
  lemma ProgressBounds(weeks: seq<Week>)
    ensures 0 <= Progress(weeks) <= 100
    ensures TotalTasks(weeks) == 0 ==> Progress(weeks) == 0
  {
    CompletedTasksFacts(weeks);
    var t := TotalTasks(weeks);
    if t > 0 {
      DivBelow(200 * CompletedTasks(weeks) + t, 2 * t, 101);
    }
  }

  /** Rounding at the top and bottom of the scale only lands on 100 or 0 from the exact ends while t < 200. */
  lemma RoundPercentEnds(c: nat, t: nat)
    requires 0 < t < 200 && c <= t
    ensures RoundPercent(c, t) == 100 <==> c == t
    ensures RoundPercent(c, t) == 0 <==> c == 0
  {
    var n := 200 * c + t;
    if c < t {
      DivBelow(n, 2 * t, 100);
    } else {
      DivAtLeast(n, 2 * t, 100);
      DivBelow(n, 2 * t, 101);
    }
    if c > 0 {
      DivAtLeast(n, 2 * t, 1);
    } else {
      DivBelow(n, 2 * t, 1);
    }
  }

  /** Progress reads 100 exactly when every task is done and 0 exactly when none is (fewer than 200 tasks). */
  lemma ProgressEnds(weeks: seq<Week>)
    requires TotalTasks(weeks) < 200
    ensures Progress(weeks) == 100 <==> TotalTasks(weeks) > 0 && AllCompleted(weeks)
    ensures Progress(weeks) == 0 <==> NoneCompleted(weeks)
  {
    CompletedTasksFacts(weeks);
    if TotalTasks(weeks) > 0 {
      RoundPercentEnds(CompletedTasks(weeks), TotalTasks(weeks));
    }
  }

  /** With 201 tasks, 200 done already rounds to 100 and 1 done still rounds to 0. */
  lemma RoundingHidesOneTask()
    ensures RoundPercent(200, 201) == 100
    ensures RoundPercent(1, 201) == 0
  {
  }

  /** Three tasks done out of four reads 75. */
  lemma ThreeOfFour(weeks: seq<Week>)
    requires TotalTasks(weeks) == 4 && CompletedTasks(weeks) == 3
    ensures Progress(weeks) == 75
  {
  }

  lemma {:induction false} TotalTasksTwoEach(weeks: seq<Week>)
    requires forall i :: 0 <= i < |weeks| ==> |weeks[i].tasks| == 2
    ensures TotalTasks(weeks) == 2 * |weeks|
  {
    if weeks != [] {
      TotalTasksTwoEach(weeks[..|weeks| - 1]);
    }
  }

  /**
   * Every list the app can reach from its initial data has 48 tasks, so its
   * progress reads 100 exactly when all of them are done and 0 exactly when
   * none is.
   */
  lemma ReachableProgressEnds(actions: seq<Action>)
    ensures var weeks := Run(InitialData(), actions);
      && TotalTasks(weeks) == 48
      && (Progress(weeks) == 100 <==> AllCompleted(weeks))
      && (Progress(weeks) == 0 <==> NoneCompleted(weeks))
  {
    var weeks := Run(InitialData(), actions);
    InitialDataShape();
    RunEvolves(InitialData(), actions);
    TotalTasksTwoEach(weeks);
    ProgressEnds(weeks);
  }

  // ---------------------------------------------------------------------
  // isMonthDone and isLocked
  // ---------------------------------------------------------------------

  /** The filter keeps exactly the weeks of month `m`, in order. */
  lemma {:induction false} WeeksOfMonthMembers(weeks: seq<Week>, m: int)
    ensures forall w :: w in WeeksOfMonth(weeks, m) <==> w in weeks && w.month == m
  {
    if weeks != [] {
      WeeksOfMonthMembers(weeks[..|weeks| - 1], m);
      assert weeks == weeks[..|weeks| - 1] + [weeks[|weeks| - 1]];
    }
  }

  /** A month is done exactly when every week of that month is closed; a month without weeks is done. */
  lemma MonthDoneIff(weeks: seq<Week>, m: int)
    ensures IsMonthDone(weeks, m) <==> forall i :: 0 <= i < |weeks| && weeks[i].month == m ==> weeks[i].closed
  {
    WeeksOfMonthMembers(weeks, m);
    var ws := WeeksOfMonth(weeks, m);
    if IsMonthDone(weeks, m) {
      forall i | 0 <= i < |weeks| && weeks[i].month == m
        ensures weeks[i].closed
      {
        assert weeks[i] in ws;
      }
    } else {
      var k :| 0 <= k < |ws| && !ws[k].closed;
      assert ws[k] in weeks;
    }
  }

  /** isLocked: past week 1 and the previous week is missing or still open. */
  lemma LockedIff(weeks: seq<Week>, id: int)
    ensures IsLocked(weeks, id) <==>
      id > 1 && (!HasWeek(weeks, id - 1) || !weeks[WeekIndex(weeks, id - 1)].closed)
  {
    WeekIndexFound(weeks, id - 1);
  }

  /** An unlocked existing week always passes closeWeek's sequential gate. */
  lemma UnlockedPassesGate(weeks: seq<Week>, id: int)
    requires HasWeek(weeks, id) && !IsLocked(weeks, id)
    ensures CloseWeek(weeks, id) != PreviousWeekOpen
  {
  }

  /**
   * The converse fails: week 2 with no week 1 in the list shows as locked,
   * yet closeWeek lets it through.
   */
  lemma LockedYetClosable()
    ensures var weeks := [Week(2, 1, "Semana 2", false, [])];
      IsLocked(weeks, 2) && CloseWeek(weeks, 2) == Closed([Week(2, 1, "Semana 2", true, [])])
  {
    var weeks := [Week(2, 1, "Semana 2", false, [])];
    assert WeekIndex(weeks, 1) == 1;
    assert HasWeek(weeks, 2);
    assert !CriticalPending(weeks[0].tasks);
  }
}
