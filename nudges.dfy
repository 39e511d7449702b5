/**
 * The "Nudges & Gentle Reminders" panel: advisory notices derived from the
 * task list and the mood log, in rule order (due soon, overdue summary,
 * kitchen before company, mood).
 */
module Nudges {
  import opened Wrappers
  import opened Text
  import opened Lists
  import opened Calendar
  import opened Tasks
  import opened Store

  /** One notice of the panel, with the values its message shows. */
  datatype Nudge =
    | DueSoon(description: string, dueToday: bool)
    | OverdueSummary(count: nat)
    | KitchenBeforeCompany(companyDescription: string, companyDue: Day, kitchenDescription: string)
    | EasyStart(description: string)
    | SelfCareReminder

  /** A pending task due today or tomorrow. */
  predicate IsDueSoon(t: Task, today: Day)
  {
    t.status == Pending && t.due.Some? && (t.due.value == today || t.due.value == today + 1)
  }

  /** A pending task about the kitchen. */
  predicate IsKitchenTask(t: Task)
  {
    Contains(Lower(t.description), "kitchen") && t.status == Pending
  }

  /** A task of any status about company, due within the next three days. */
  predicate IsCompanyEvent(t: Task, today: Day)
  {
    Contains(Lower(t.description), "company") && t.due.Some? && today <= t.due.value <= today + 3
  }

  /** A pending task of Low priority: a small, easy start. */
  predicate IsEasy(t: Task)
  {
    t.status == Pending && t.priority == Low
  }

  /** A check-in that reports no focus at all or poor sleep. */
  predicate FeelingOff(e: MoodEntry)
  {
    Contains(e.focus, "Not at all") || Contains(e.sleep, "Poorly")
  }

  /** The number of overdue tasks. */
  function OverdueCount(ts: seq<Task>, today: Day): nat
  {
    |Filter(ts, (t: Task) => IsOverdue(t, today))|
  }

  /** Rule 1: one notice per task due soon, in store order. */
  function DueSoonNudges(ts: seq<Task>, today: Day): seq<Nudge>
  {
    var soon := Filter(ts, (t: Task) => IsDueSoon(t, today));
    seq(|soon|, k requires 0 <= k < |soon| => DueSoon(soon[k].description, soon[k].due == Some(today)))
  }

  /** Rule 2: a summary when some task is overdue. */
  function OverdueNudges(ts: seq<Task>, today: Day): seq<Nudge>
  {
    var n := OverdueCount(ts, today);
    if n > 0 then [OverdueSummary(n)] else []
  }

  /** Rule 3: the last kitchen task and the last company event, when both exist. */
  function ContextNudges(ts: seq<Task>, today: Day): seq<Nudge>
  {
    var kitchen := LastIndex(ts, IsKitchenTask);
    var company := LastIndex(ts, (t: Task) => IsCompanyEvent(t, today));
    if kitchen.Some? && company.Some? then
      var c := ts[company.value];
      [KitchenBeforeCompany(c.description, c.due.value, ts[kitchen.value].description)]
    else []
  }

  /** Rule 4: after an "off" check-in, the first easy task, or a self-care reminder. */
  function MoodNudges(ts: seq<Task>, log: seq<MoodEntry>): seq<Nudge>
  {
    if log == [] || !FeelingOff(log[|log| - 1]) then []
    else
      match FirstIndex(ts, IsEasy)
      case Some(i) => [EasyStart(ts[i].description)]
      case None => [SelfCareReminder]
  }

  /** The whole panel, rule by rule. */
  function NudgesFor(ts: seq<Task>, log: seq<MoodEntry>, today: Day): seq<Nudge>
  {
    DueSoonNudges(ts, today) + OverdueNudges(ts, today) + ContextNudges(ts, today) + MoodNudges(ts, log)
  }

  /**
   * The walk of rule 3: each task that qualifies replaces the candidate
   * found so far, so the last kitchen task and the last company event win.
   */
  method ScanContext(ts: seq<Task>, today: Day) returns (kitchen: Option<Task>, company: Option<Task>)
    ensures kitchen == At(ts, LastIndex(ts, IsKitchenTask))
    ensures company == At(ts, LastIndex(ts, (t: Task) => IsCompanyEvent(t, today)))
  {
    kitchen, company := None, None;
    var i := 0;
    while i < |ts|
      invariant 0 <= i <= |ts|
      invariant kitchen == At(ts[..i], LastIndex(ts[..i], IsKitchenTask))
      invariant company == At(ts[..i], LastIndex(ts[..i], (t: Task) => IsCompanyEvent(t, today)))
    {
      assert ts[..i + 1][..i] == ts[..i];
      if IsKitchenTask(ts[i]) {
        kitchen := Some(ts[i]);
      }
      if IsCompanyEvent(ts[i], today) {
        company := Some(ts[i]);
      }
      i := i + 1;
    }
    assert ts[..i] == ts;
  }

  /**
   * display_nudges: builds the panel by appends, overwriting the kitchen
   * and company candidates while it walks the task list.
   */
  method DisplayNudges(store: TaskStore, today: Day) returns (nudges: seq<Nudge>)
    ensures nudges == NudgesFor(store.tasks, store.moodLog, today)
  {
    var ts := store.tasks;
    nudges := [];

    var soon := Filter(ts, (t: Task) => IsDueSoon(t, today));
    var k := 0;
    while k < |soon|
      invariant 0 <= k <= |soon|
      invariant nudges == DueSoonNudges(ts, today)[..k]
    {
      nudges := nudges + [DueSoon(soon[k].description, soon[k].due == Some(today))];
      k := k + 1;
    }
    assert nudges == DueSoonNudges(ts, today);
    ghost var before := nudges;

    var overdueCount := |Filter(ts, (t: Task) => IsOverdue(t, today))|;
    if overdueCount > 0 {
      nudges := nudges + [OverdueSummary(overdueCount)];
    }

    var kitchen, company := ScanContext(ts, today);
    if kitchen.Some? && company.Some? {
      nudges := nudges + [KitchenBeforeCompany(company.value.description, company.value.due.value,
                                               kitchen.value.description)];
    }

    ghost var mid := nudges;
    assert mid == before + OverdueNudges(ts, today) + ContextNudges(ts, today);
    if store.moodLog != [] {
      var last := store.moodLog[|store.moodLog| - 1];
      if FeelingOff(last) {
        var easy := Filter(ts, IsEasy);
        FilterHead(ts, IsEasy);
        if easy != [] {
          nudges := nudges + [EasyStart(easy[0].description)];
        } else {
          nudges := nudges + [SelfCareReminder];
        }
      }
    }
    assert nudges == mid + MoodNudges(ts, store.moodLog);
    assert nudges == NudgesFor(ts, store.moodLog, today);
  }
}

/** What the panel promises, proved about NudgesFor. */
module NudgeFacts {
  import opened Wrappers
  import opened Text
  import opened Lists
  import opened Calendar
  import opened Tasks
  import opened Nudges

  /** Each rule contributes notices of its own kind only. */
  lemma RuleKinds(ts: seq<Task>, log: seq<MoodEntry>, today: Day)
    ensures forall n :: n in DueSoonNudges(ts, today) ==> n.DueSoon?
    ensures forall n :: n in OverdueNudges(ts, today) ==> n.OverdueSummary?
    ensures forall n :: n in ContextNudges(ts, today) ==> n.KitchenBeforeCompany?
    ensures forall n :: n in MoodNudges(ts, log) ==> n.EasyStart? || n.SelfCareReminder?
  {
  }

  /** Position k holds a pending kitchen task and no later task is one. */
  predicate IsLastKitchenTask(ts: seq<Task>, k: nat)
    requires k < |ts|
  {
    IsKitchenTask(ts[k]) && forall j :: k < j < |ts| ==> !IsKitchenTask(ts[j])
  }

  /** Position c holds a company event within three days and no later task is one. */
  predicate IsLastCompanyEvent(ts: seq<Task>, today: Day, c: nat)
    requires c < |ts|
  {
    IsCompanyEvent(ts[c], today) && forall j :: c < j < |ts| ==> !IsCompanyEvent(ts[j], today)
  }

  /** Position i holds an easy start and no earlier task is one. */
  predicate IsFirstEasy(ts: seq<Task>, i: nat)
    requires i < |ts|
  {
    IsEasy(ts[i]) && forall j :: 0 <= j < i ==> !IsEasy(ts[j])
  }

  /** Rule 1 on its own: one notice for each pending task due today or tomorrow. */
  lemma DueSoonNudgesAre(ts: seq<Task>, today: Day, d: string, dueToday: bool)
    ensures DueSoon(d, dueToday) in DueSoonNudges(ts, today)
        <==> exists i :: 0 <= i < |ts| && IsDueSoon(ts[i], today) && ts[i].description == d
                                        && dueToday == (ts[i].due == Some(today))
  {
    var soon := Filter(ts, (t: Task) => IsDueSoon(t, today));
    var r := DueSoonNudges(ts, today);
    if DueSoon(d, dueToday) in r {
      var k :| 0 <= k < |r| && r[k] == DueSoon(d, dueToday);
      assert soon[k] in ts;
    }
    if exists i :: 0 <= i < |ts| && IsDueSoon(ts[i], today) && ts[i].description == d
                   && dueToday == (ts[i].due == Some(today)) {
      var i :| 0 <= i < |ts| && IsDueSoon(ts[i], today) && ts[i].description == d
               && dueToday == (ts[i].due == Some(today));
      assert ts[i] in soon;
      var k :| 0 <= k < |soon| && soon[k] == ts[i];
      assert r[k] == DueSoon(d, dueToday);
    }
  }

  /**
   * A due-soon notice names a task exactly when that task is pending and
   * due today or tomorrow, and says "today" exactly when it is due today.
   */
  lemma DueSoonIff(ts: seq<Task>, log: seq<MoodEntry>, today: Day, d: string, dueToday: bool)
    ensures DueSoon(d, dueToday) in NudgesFor(ts, log, today)
        <==> exists i :: 0 <= i < |ts| && IsDueSoon(ts[i], today) && ts[i].description == d
                                        && dueToday == (ts[i].due == Some(today))
  {
    RuleKinds(ts, log, today);
    DueSoonNudgesAre(ts, today, d, dueToday);
  }

  /** Rule 1 keeps store order: the notices of a longer list extend those of a shorter one. */
  lemma DueSoonAppend(ts: seq<Task>, t: Task, today: Day)
    ensures DueSoonNudges(ts + [t], today)
         == DueSoonNudges(ts, today)
            + (if IsDueSoon(t, today) then [DueSoon(t.description, t.due == Some(today))] else [])
  {
    FilterAppend(ts, [t], (t: Task) => IsDueSoon(t, today));
    assert Filter([t], (t: Task) => IsDueSoon(t, today)) == if IsDueSoon(t, today) then [t] else [];
  }

  /** The overdue count is zero exactly when nothing is overdue. */
  lemma OverdueCountZero(ts: seq<Task>, today: Day)
    ensures OverdueCount(ts, today) == 0 <==> forall i :: 0 <= i < |ts| ==> !IsOverdue(ts[i], today)
  {
    var f := Filter(ts, (t: Task) => IsOverdue(t, today));
    if exists i :: 0 <= i < |ts| && IsOverdue(ts[i], today) {
      var i :| 0 <= i < |ts| && IsOverdue(ts[i], today);
      assert ts[i] in f;
    }
    if f != [] {
      assert f[0] in ts;
      var j :| 0 <= j < |ts| && ts[j] == f[0];
      assert IsOverdue(ts[j], today);
    }
  }

  /** The summary appears exactly when some task is overdue, and carries the overdue count. */
  lemma OverdueSummaryIff(ts: seq<Task>, log: seq<MoodEntry>, today: Day, n: nat)
    ensures OverdueSummary(n) in NudgesFor(ts, log, today)
        <==> n == OverdueCount(ts, today) && exists i :: 0 <= i < |ts| && IsOverdue(ts[i], today)
  {
    RuleKinds(ts, log, today);
    OverdueCountZero(ts, today);
  }

  /** Rule 3 on its own: its notice pairs the last company event with the last kitchen task. */
  lemma ContextNudgesAre(ts: seq<Task>, today: Day, cd: string, due: Day, kd: string)
    ensures KitchenBeforeCompany(cd, due, kd) in ContextNudges(ts, today)
        <==> ((exists c :: 0 <= c < |ts| && IsLastCompanyEvent(ts, today, c)
                         && ts[c].description == cd && ts[c].due == Some(due))
              && (exists k :: 0 <= k < |ts| && IsLastKitchenTask(ts, k) && ts[k].description == kd))
  {
    if exists c :: 0 <= c < |ts| && IsLastCompanyEvent(ts, today, c)
                   && ts[c].description == cd && ts[c].due == Some(due) {
      var c :| 0 <= c < |ts| && IsLastCompanyEvent(ts, today, c)
               && ts[c].description == cd && ts[c].due == Some(due);
      LastIndexIs(ts, (t: Task) => IsCompanyEvent(t, today), c);
    }
    if exists k :: 0 <= k < |ts| && IsLastKitchenTask(ts, k) && ts[k].description == kd {
      var k :| 0 <= k < |ts| && IsLastKitchenTask(ts, k) && ts[k].description == kd;
      LastIndexIs(ts, IsKitchenTask, k);
    }
  }

  /**
   * The contextual notice appears exactly when a pending kitchen task and
   * a company event within three days both exist; it names the last of each.
   */
  lemma KitchenNudgeIff(ts: seq<Task>, log: seq<MoodEntry>, today: Day,
                        cd: string, due: Day, kd: string)
    ensures KitchenBeforeCompany(cd, due, kd) in NudgesFor(ts, log, today)
        <==> ((exists c :: 0 <= c < |ts| && IsLastCompanyEvent(ts, today, c)
                         && ts[c].description == cd && ts[c].due == Some(due))
              && (exists k :: 0 <= k < |ts| && IsLastKitchenTask(ts, k) && ts[k].description == kd))
  {
    RuleKinds(ts, log, today);
    ContextNudgesAre(ts, today, cd, due, kd);
  }

  /** The mood rule reads the most recent check-in only. */
  lemma OnlyLastCheckInMatters(ts: seq<Task>, log: seq<MoodEntry>, e: MoodEntry, today: Day)
    ensures NudgesFor(ts, log + [e], today) == NudgesFor(ts, [e], today)
  {
    assert (log + [e])[|log + [e]| - 1] == e;
  }

  /** Without a check-in there is no mood notice. */
  lemma NoCheckInNoMoodNudge(ts: seq<Task>, today: Day)
    ensures NudgesFor(ts, [], today)
         == DueSoonNudges(ts, today) + OverdueNudges(ts, today) + ContextNudges(ts, today)
  {
    assert MoodNudges(ts, []) == [];
  }

  /** Rule 4 on its own: the easy-start notice names the first easy task. */
  lemma MoodNudgesAre(ts: seq<Task>, log: seq<MoodEntry>, d: string)
    ensures EasyStart(d) in MoodNudges(ts, log)
        <==> (log != [] && FeelingOff(log[|log| - 1])
              && exists i :: 0 <= i < |ts| && IsFirstEasy(ts, i) && ts[i].description == d)
  {
    if exists i :: 0 <= i < |ts| && IsFirstEasy(ts, i) && ts[i].description == d {
      var i :| 0 <= i < |ts| && IsFirstEasy(ts, i) && ts[i].description == d;
      FirstIndexIs(ts, IsEasy, i);
    }
  }

  /** After an "off" check-in the easy-start notice names the first pending Low task. */
  lemma EasyStartFirstLow(ts: seq<Task>, log: seq<MoodEntry>, today: Day, d: string)
    ensures EasyStart(d) in NudgesFor(ts, log, today)
        <==> (log != [] && FeelingOff(log[|log| - 1])
              && exists i :: 0 <= i < |ts| && IsFirstEasy(ts, i) && ts[i].description == d)
  {
    RuleKinds(ts, log, today);
    MoodNudgesAre(ts, log, d);
  }

  /** After an "off" check-in the self-care reminder appears exactly when no task is an easy start. */
  lemma SelfCareWithoutEasy(ts: seq<Task>, log: seq<MoodEntry>, today: Day)
    ensures SelfCareReminder in NudgesFor(ts, log, today)
        <==> (log != [] && FeelingOff(log[|log| - 1]) && forall i :: 0 <= i < |ts| ==> !IsEasy(ts[i]))
  {
    RuleKinds(ts, log, today);
  }

  /** The focus option "\U{1F4C9} Not at all" of the check-in form reads as feeling off. */
  lemma NoFocusFeelsOff(e: MoodEntry)
    requires e.focus == "\U{1F4C9} Not at all"
    ensures FeelingOff(e)
  {
    assert OccursAt(e.focus, "Not at all", 2);
  }

  /** The sleep option "\U{1F634} Poorly" of the check-in form reads as feeling off. */
  lemma PoorSleepFeelsOff(e: MoodEntry)
    requires e.sleep == "\U{1F634} Poorly"
    ensures FeelingOff(e)
  {
    assert OccursAt(e.sleep, "Poorly", 2);
  }

  /**
   * A Low "Buy milk" task before a "Clean kitchen" task, neither due, and
   * a last check-in with no focus: the panel is exactly one easy-start
   * notice, and it names "Buy milk".
   */
  lemma BuyMilkExample(a: Task, b: Task, log: seq<MoodEntry>, today: Day)
    requires a.description == "Buy milk" && a.status == Pending && a.due == None && a.priority == Low
    requires b.description == "Clean kitchen" && b.status == Pending && b.due == None
    requires log != [] && log[|log| - 1].focus == "\U{1F4C9} Not at all"
    ensures NudgesFor([a, b], log, today) == [EasyStart(a.description)]
    ensures EasyStart(b.description) !in NudgesFor([a, b], log, today)
  {
    var ts := [a, b];
    NoFocusFeelsOff(log[|log| - 1]);
    assert Filter(ts, (t: Task) => IsDueSoon(t, today)) == [];
    assert Filter(ts, (t: Task) => IsOverdue(t, today)) == [];
    assert LastIndex(ts, (t: Task) => IsCompanyEvent(t, today)) == None;
    assert FirstIndex(ts, IsEasy) == Some(0);
  }
}
