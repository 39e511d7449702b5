/**
 * The text assistant's side effects: a reply is split into the text shown
 * and its action line, and the action's directive is carried out on the
 * session's task list. Adding and completing change the list; listing and
 * status checks only read it.
 */
module Assistant {
  import opened Wrappers
  import opened Text
  import opened Lists
  import opened Calendar
  import opened Tasks
  import opened Store
  import opened Directives

  /** What carrying out a directive shows the user. */
  datatype Outcome =
    | TaskAdded(task: Task)
    | DescriptionMissing
    | TaskCompleted(task: Task)
    | NoPendingMatch(description: string)
    | TaskList(filter: string, shown: seq<Task>)
    | StatusReport(task: Task)
    | NoMatch(description: string)
    | NoAction
    | UnknownAction(verb: string)

  /** action_params.get(key, default) */
  function GetOr(params: map<string, string>, key: string, default: string): string
  {
    if key in params then params[key] else default
  }

  /** `if desc:` on action_params.get("DESCRIPTION"): a description that is present and not empty. */
  function Description(params: map<string, string>): (r: Option<string>)
    ensures r.Some? <==> "DESCRIPTION" in params && params["DESCRIPTION"] != []
    ensures r.Some? ==> r.value == params["DESCRIPTION"]
  {
    if "DESCRIPTION" in params && params["DESCRIPTION"] != [] then Some(params["DESCRIPTION"]) else None
  }

  /** task['description'].lower() == desc.lower() */
  predicate Matches(t: Task, desc: string)
  {
    Lower(t.description) == Lower(desc)
  }

  /** The test of the completion loop: a pending task with that description. */
  predicate PendingMatch(t: Task, desc: string)
  {
    Matches(t, desc) && t.status == Pending
  }

  /** ADD_TASK: a task built like every voice task, or nothing without a description. */
  function AddEffect(ts: seq<Task>, params: map<string, string>, today: Day): (Outcome, seq<Task>)
  {
    match Description(params)
    case None => (DescriptionMissing, ts)
    case Some(desc) =>
      var t := VoiceTask(|ts|, desc, GetOr(params, "DUE_DATE_STR", "N/A"), today);
      (TaskAdded(t), ts + [t])
  }

  /** COMPLETE_TASK with a description: the first pending task with it is completed. */
  function CompleteEffect(ts: seq<Task>, desc: string): (Outcome, seq<Task>)
  {
    match FirstIndex(ts, (t: Task) => PendingMatch(t, desc))
    case None => (NoPendingMatch(desc), ts)
    case Some(i) =>
      var r := SetStatus(ts, i, Completed);
      (TaskCompleted(r[i]), r)
  }

  /** One task against the LIST_TASKS filter (already lower-cased); only pending tasks are listed. */
  predicate Listed(t: Task, filter: string, today: Day)
  {
    t.status == Pending
    && if filter == "today" then t.due == Some(today)
       else if filter == "overdue" then t.due.Some? && t.due.value < today
       else if filter == "all" then true
       else Contains(Lower(t.description), filter) || Contains(Lower(t.category), filter)
  }

  /** The tasks LIST_TASKS shows, in store order. */
  function ListedTasks(ts: seq<Task>, filter: string, today: Day): seq<Task>
  {
    Filter(ts, (t: Task) => Listed(t, filter, today))
  }

  /** CHECK_STATUS with a description: the first task with it, whatever its status. */
  function StatusOf(ts: seq<Task>, desc: string): Outcome
  {
    match FirstIndex(ts, (t: Task) => Matches(t, desc))
    case None => NoMatch(desc)
    case Some(i) => StatusReport(ts[i])
  }

  /** What a directive shows and the task list it leaves. */
  function Effect(ts: seq<Task>, d: Directive, today: Day): (Outcome, seq<Task>)
  {
    if d.verb == "ADD_TASK" then AddEffect(ts, d.params, today)
    else if d.verb == "COMPLETE_TASK" then
      match Description(d.params)
      case None => (DescriptionMissing, ts)
      case Some(desc) => CompleteEffect(ts, desc)
    else if d.verb == "LIST_TASKS" then
      var filter := Lower(GetOr(d.params, "FILTER", "all"));
      (TaskList(filter, ListedTasks(ts, filter, today)), ts)
    else if d.verb == "CHECK_STATUS" then
      match Description(d.params)
      case None => (DescriptionMissing, ts)
      case Some(desc) => (StatusOf(ts, desc), ts)
    else if d.verb == "GENERAL_QUERY" then (NoAction, ts)
    else (UnknownAction(d.verb), ts)
  }

  /** A whole reply: its action line, when there is one, is parsed and carried out. */
  function Reaction(ts: seq<Task>, reply: string, today: Day): (Outcome, seq<Task>)
  {
    match ActionOf(reply)
    case None => (NoAction, ts)
    case Some(line) => Effect(ts, ParseDirective(line), today)
  }

  /** The completion loop: the first pending task with the description is completed, then the loop stops. */
  method CompleteFirst(store: TaskStore, desc: string) returns (o: Outcome)
    modifies store
    ensures (o, store.tasks) == CompleteEffect(old(store.tasks), desc)
    ensures store.moodLog == old(store.moodLog)
  {
    var i := 0;
    while i < |store.tasks|
      invariant 0 <= i <= |store.tasks|
      invariant store.tasks == old(store.tasks) && store.moodLog == old(store.moodLog)
      invariant forall j :: 0 <= j < i ==> !PendingMatch(store.tasks[j], desc)
    {
      if PendingMatch(store.tasks[i], desc) {
        FirstIndexIs(store.tasks, (t: Task) => PendingMatch(t, desc), i);
        store.MarkCompleted(i);
        o := TaskCompleted(store.tasks[i]);
        return;
      }
      i := i + 1;
    }
    o := NoPendingMatch(desc);
  }

  /** The status loop: the first task with the description is reported, then the loop stops. */
  method FindStatus(ts: seq<Task>, desc: string) returns (o: Outcome)
    ensures o == StatusOf(ts, desc)
  {
    var i := 0;
    while i < |ts|
      invariant 0 <= i <= |ts|
      invariant forall j :: 0 <= j < i ==> !Matches(ts[j], desc)
    {
      if Matches(ts[i], desc) {
        FirstIndexIs(ts, (t: Task) => Matches(t, desc), i);
        return StatusReport(ts[i]);
      }
      i := i + 1;
    }
    o := NoMatch(desc);
  }

  /** The dispatch on the action type. */
  method Execute(store: TaskStore, d: Directive, today: Day) returns (o: Outcome)
    modifies store
    ensures (o, store.tasks) == Effect(old(store.tasks), d, today)
    ensures store.moodLog == old(store.moodLog)
  {
    if d.verb == "ADD_TASK" {
      var desc := Description(d.params);
      if desc.None? {
        o := DescriptionMissing;
      } else {
        store.AddVoiceTask(desc.value, GetOr(d.params, "DUE_DATE_STR", "N/A"), today);
        o := TaskAdded(store.tasks[|store.tasks| - 1]);
      }
    } else if d.verb == "COMPLETE_TASK" {
      var desc := Description(d.params);
      if desc.None? {
        o := DescriptionMissing;
      } else {
        o := CompleteFirst(store, desc.value);
      }
    } else if d.verb == "LIST_TASKS" {
      var filter := Lower(GetOr(d.params, "FILTER", "all"));
      o := TaskList(filter, ListedTasks(store.tasks, filter, today));
    } else if d.verb == "CHECK_STATUS" {
      var desc := Description(d.params);
      if desc.None? {
        o := DescriptionMissing;
      } else {
        o := FindStatus(store.tasks, desc.value);
      }
    } else if d.verb == "GENERAL_QUERY" {
      o := NoAction;
    } else {
      o := UnknownAction(d.verb);
    }
  }

  /**
   * The reply handler: an empty reply shows nothing and does nothing;
   * otherwise the text shown is the natural part, and the action line, when
   * the reply has one, is read and carried out.
   */
  method Respond(store: TaskStore, reply: string, today: Day) returns (display: Option<string>, o: Outcome)
    modifies store
    ensures display == if reply == [] then None else Some(NaturalDisplay(NaturalOf(reply)))
    ensures reply == [] ==> o == NoAction && store.tasks == old(store.tasks)
    ensures (o, store.tasks) == Reaction(old(store.tasks), reply, today)
    ensures store.moodLog == old(store.moodLog)
  {
    if reply == [] {
      display, o := None, NoAction;
      return;
    }
    var natural, action := SplitReply(reply);
    display := Some(NaturalDisplay(natural));
    if action.None? {
      o := NoAction;
    } else {
      var d := ReadDirective(action.value);
      o := Execute(store, d, today);
    }
  }
}

/** What carrying out a directive promises, proved about the functions above. */
module AssistantFacts {
  import opened Wrappers
  import opened Text
  import opened Lists
  import opened Calendar
  import opened Tasks
  import TaskFacts
  import opened Directives
  import DirectiveFacts
  import DueDates
  import Classify
  import ClassifyFacts
  import opened Assistant

  /**
   * A directive leaves the list as it was, appends the task it reports
   * (ADD_TASK), or completes one task in place (COMPLETE_TASK).
   */
  lemma EffectShapes(ts: seq<Task>, d: Directive, today: Day)
    ensures var (o, r) := Effect(ts, d, today);
      || r == ts
      || (d.verb == "ADD_TASK" && o.TaskAdded? && r == ts + [o.task])
      || (d.verb == "COMPLETE_TASK" && o.TaskCompleted?
          && "DESCRIPTION" in d.params
          && exists i :: 0 <= i < |ts| && PendingMatch(ts[i], d.params["DESCRIPTION"])
                         && r == SetStatus(ts, i, Completed))
  {
    if d.verb == "COMPLETE_TASK" && Description(d.params).Some? {
      var desc := Description(d.params).value;
      var f := FirstIndex(ts, (t: Task) => PendingMatch(t, desc));
      if f.Some? {
        var i := f.value;
        assert PendingMatch(ts[i], desc);
      }
    }
  }

  /** Every directive keeps every task's type one of the four known types. */
  lemma EffectKeepsKnownTypes(ts: seq<Task>, d: Directive, today: Day)
    requires KnownTypes(ts)
    ensures KnownTypes(Effect(ts, d, today).1)
  {
    if d.verb == "ADD_TASK" && Description(d.params).Some? {
      var desc := Description(d.params).value;
      var dueText := GetOr(d.params, "DUE_DATE_STR", "N/A");
      TaskFacts.NewTaskTypes(|ts|, desc, None, Medium, dueText, today);
      TaskFacts.KnownTypesAppend(ts, VoiceTask(|ts|, desc, dueText, today));
    } else if d.verb == "COMPLETE_TASK" && Description(d.params).Some? {
      var desc := Description(d.params).value;
      var f := FirstIndex(ts, (t: Task) => PendingMatch(t, desc));
      if f.Some? {
        TaskFacts.KnownTypesEdits(ts, f.value, Completed, today, 0);
      }
    }
  }

  /**
   * ADD_TASK adds exactly when a non-empty description is given; the new
   * task is pending, of priority Medium, with the next id, a voice type,
   * and the due date resolved from DUE_DATE_STR.
   */
  lemma AddTaskIff(ts: seq<Task>, d: Directive, today: Day)
    requires d.verb == "ADD_TASK"
    ensures Effect(ts, d, today).0.TaskAdded?
        <==> "DESCRIPTION" in d.params && d.params["DESCRIPTION"] != []
    ensures !Effect(ts, d, today).0.TaskAdded? ==> Effect(ts, d, today) == (DescriptionMissing, ts)
    ensures Effect(ts, d, today).0.TaskAdded? ==>
      var t := Effect(ts, d, today).0.task;
      && Effect(ts, d, today).1 == ts + [t]
      && t.id == |ts| + 1 && t.description == d.params["DESCRIPTION"]
      && t.status == Pending && t.priority == Medium && t.category == Classify.VoiceTaskType(t.description)
      && t.due == DueDates.ResolveVoiceDue(GetOr(d.params, "DUE_DATE_STR", "N/A"), today)
  {
    if Description(d.params).Some? {
      var desc := Description(d.params).value;
      TaskFacts.NewTaskTypes(|ts|, desc, None, Medium, GetOr(d.params, "DUE_DATE_STR", "N/A"), today);
    }
  }

  /** "N/A", the default of a missing DUE_DATE_STR, resolves to no due date. */
  lemma NotApplicableNoDue(today: Day)
    ensures DueDates.ResolveVoiceDue("N/A", today) == None
  {
    assert Lower("N/A") == "n/a";
  }

  /** An ADD_TASK without DUE_DATE_STR adds a task without a due date. */
  lemma AddWithoutDueText(ts: seq<Task>, d: Directive, today: Day)
    requires d.verb == "ADD_TASK" && "DUE_DATE_STR" !in d.params
    requires "DESCRIPTION" in d.params && d.params["DESCRIPTION"] != []
    ensures Effect(ts, d, today).0.TaskAdded? && Effect(ts, d, today).0.task.due == None
  {
    NotApplicableNoDue(today);
  }

  /**
   * COMPLETE_TASK completes a task exactly when some pending task has the
   * description (ignoring case); it is the first such task, and nothing
   * else changes. Without one the list is left as it was.
   */
  lemma CompleteFirstPendingMatch(ts: seq<Task>, desc: string)
    ensures CompleteEffect(ts, desc).0.TaskCompleted?
        <==> exists j :: 0 <= j < |ts| && PendingMatch(ts[j], desc)
    ensures !CompleteEffect(ts, desc).0.TaskCompleted? ==> CompleteEffect(ts, desc) == (NoPendingMatch(desc), ts)
    ensures CompleteEffect(ts, desc).0.TaskCompleted? ==>
      exists i :: 0 <= i < |ts| && PendingMatch(ts[i], desc)
        && (forall j :: 0 <= j < i ==> !PendingMatch(ts[j], desc))
        && CompleteEffect(ts, desc) == (TaskCompleted(ts[i].(status := Completed)), SetStatus(ts, i, Completed))
  {
    var f := FirstIndex(ts, (t: Task) => PendingMatch(t, desc));
    if f.Some? {
      var i := f.value;
      assert PendingMatch(ts[i], desc);
      assert forall j :: 0 <= j < i ==> !PendingMatch(ts[j], desc);
    } else {
      assert forall j :: 0 <= j < |ts| ==> !PendingMatch(ts[j], desc);
    }
  }

  /**
   * When one pending task has the description, completing it twice
   * completes it once: the second directive finds no pending match and
   * changes nothing.
   */
  lemma CompleteTwice(ts: seq<Task>, desc: string, i: nat)
    requires i < |ts| && PendingMatch(ts[i], desc)
    requires forall j :: 0 <= j < |ts| && j != i ==> !PendingMatch(ts[j], desc)
    ensures var r := CompleteEffect(ts, desc).1;
      CompleteEffect(r, desc) == (NoPendingMatch(desc), r)
  {
    FirstIndexIs(ts, (t: Task) => PendingMatch(t, desc), i);
    var r := CompleteEffect(ts, desc).1;
    assert r == SetStatus(ts, i, Completed);
    assert forall j :: 0 <= j < |r| ==> !PendingMatch(r[j], desc);
    CompleteFirstPendingMatch(r, desc);
  }

  /** LIST_TASKS shows exactly the listed tasks of the store, each as often as it occurs there. */
  lemma ListedExactly(ts: seq<Task>, filter: string, today: Day, t: Task)
    ensures multiset(ListedTasks(ts, filter, today))[t]
         == if Listed(t, filter, today) then multiset(ts)[t] else 0
    ensures t in ListedTasks(ts, filter, today) ==> t in ts && t.status == Pending
  {
    FilterCount(ts, (t: Task) => Listed(t, filter, today), t);
  }

  /** The "overdue" filter lists exactly the display's overdue section, in the same order. */
  lemma ListOverdueIsOverdueSection(ts: seq<Task>, today: Day)
    ensures ListedTasks(ts, "overdue", today) == InSection(ts, today, OverdueSection)
  {
    forall i | 0 <= i < |ts|
      ensures Listed(ts[i], "overdue", today) == (SectionOf(ts[i], today) == OverdueSection)
    {
      TaskFacts.OverdueSectionIff(ts[i], today);
    }
    FilterAgree(ts, (t: Task) => Listed(t, "overdue", today),
                (t: Task) => SectionOf(t, today) == OverdueSection);
  }

  /** The "all" filter lists the pending tasks: the overdue and the upcoming ones. */
  lemma ListAllIsPending(ts: seq<Task>, today: Day)
    ensures ListedTasks(ts, "all", today) == Filter(ts, (t: Task) => t.status == Pending)
  {
    FilterAgree(ts, (t: Task) => Listed(t, "all", today), (t: Task) => t.status == Pending);
  }

  /**
   * An empty FILTER falls through to the keyword search, and the empty
   * text occurs in every description: every pending task is listed.
   */
  lemma EmptyFilterListsAll(ts: seq<Task>, today: Day)
    ensures ListedTasks(ts, "", today) == ListedTasks(ts, "all", today)
  {
    forall i | 0 <= i < |ts|
      ensures Listed(ts[i], "", today) == Listed(ts[i], "all", today)
    {
      assert OccursAt(Lower(ts[i].description), "", 0);
    }
    FilterAgree(ts, (t: Task) => Listed(t, "", today), (t: Task) => Listed(t, "all", today));
  }

  /** CHECK_STATUS reports exactly when some task has the description, and then the first one. */
  lemma StatusOfFirstMatch(ts: seq<Task>, desc: string)
    ensures StatusOf(ts, desc).StatusReport? <==> exists j :: 0 <= j < |ts| && Matches(ts[j], desc)
    ensures !StatusOf(ts, desc).StatusReport? ==> StatusOf(ts, desc) == NoMatch(desc)
    ensures StatusOf(ts, desc).StatusReport? ==>
      exists i :: 0 <= i < |ts| && StatusOf(ts, desc).task == ts[i]
        && Matches(ts[i], desc) && forall j :: 0 <= j < i ==> !Matches(ts[j], desc)
  {
    var f := FirstIndex(ts, (t: Task) => Matches(t, desc));
    if f.Some? {
      assert Matches(ts[f.value], desc);
    } else {
      assert forall j :: 0 <= j < |ts| ==> !Matches(ts[j], desc);
    }
  }

  /** The parameters of an ADD_TASK line as the prompt teaches it. */
  function AddParams(desc: string, dueText: string): seq<(string, string)>
  {
    [("DESCRIPTION", desc), ("DUE_DATE_STR", dueText)]
  }

  /** ADD_TASK and its two keys survive the action-line format. */
  lemma AddParamsWellFormed(desc: string, dueText: string)
    requires IsWord(desc) && IsWord(dueText)
    ensures IsWord("ADD_TASK") && ':' !in "ADD_TASK"
    ensures WellFormedParams(AddParams(desc, dueText)) && DistinctKeys(AddParams(desc, dueText))
  {
    assert IsWord("DESCRIPTION") && ':' !in "DESCRIPTION";
    assert IsWord("DUE_DATE_STR") && ':' !in "DUE_DATE_STR";
    assert |"DESCRIPTION"| != |"DUE_DATE_STR"|;
  }

  /** The ADD_TASK line the assistant writes is read back with its description and due text. */
  lemma ParsedAddLine(desc: string, dueText: string)
    requires IsWord(desc) && IsWord(dueText)
    ensures var d := ParseDirective(Render("ADD_TASK", AddParams(desc, dueText)));
      && d.verb == "ADD_TASK"
      && "DESCRIPTION" in d.params && d.params["DESCRIPTION"] == desc
      && "DUE_DATE_STR" in d.params && d.params["DUE_DATE_STR"] == dueText
  {
    var ps := AddParams(desc, dueText);
    AddParamsWellFormed(desc, dueText);
    DirectiveFacts.DirectiveRoundTrip("ADD_TASK", ps);
    assert ps[0].0 == "DESCRIPTION" && ps[1].0 == "DUE_DATE_STR";
  }

  /**
   * A reply of natural lines followed by an ADD_TASK line adds the task
   * the line describes, built like every voice task, and nothing else.
   */
  lemma AddByReply(ts: seq<Task>, natural: seq<string>, desc: string, dueText: string, today: Day)
    requires forall i :: 0 <= i < |natural| ==> '\n' !in natural[i] && !IsActionLine(natural[i])
    requires IsWord(desc) && IsWord(dueText)
    ensures var reply := Join(natural + [Render("ADD_TASK", AddParams(desc, dueText))], "\n");
      var t := VoiceTask(|ts|, desc, dueText, today);
      Reaction(ts, reply, today) == (TaskAdded(t), ts + [t])
  {
    var line := Render("ADD_TASK", AddParams(desc, dueText));
    AddParamsWellFormed(desc, dueText);
    DirectiveFacts.RenderIsActionLine("ADD_TASK", AddParams(desc, dueText));
    DirectiveFacts.ReplyRoundTrip(natural, line);
    ParsedAddLine(desc, dueText);
  }

  /**
   * The page keeps the last reply and handles it again on every rerun: a
   * second pass over the same ADD_TASK reply appends a second copy of the
   * task, under the next id.
   */
  lemma RerunAddsTwice(ts: seq<Task>, natural: seq<string>, desc: string, dueText: string, today: Day)
    requires forall i :: 0 <= i < |natural| ==> '\n' !in natural[i] && !IsActionLine(natural[i])
    requires IsWord(desc) && IsWord(dueText)
    ensures var reply := Join(natural + [Render("ADD_TASK", AddParams(desc, dueText))], "\n");
      var twice := Reaction(Reaction(ts, reply, today).1, reply, today).1;
      && twice == ts + [VoiceTask(|ts|, desc, dueText, today), VoiceTask(|ts| + 1, desc, dueText, today)]
      && twice[|ts|].id == |ts| + 1 && twice[|ts| + 1].id == |ts| + 2
      && twice[|ts|].description == twice[|ts| + 1].description == desc
  {
    var t := VoiceTask(|ts|, desc, dueText, today);
    var u := VoiceTask(|ts| + 1, desc, dueText, today);
    AddByReply(ts, natural, desc, dueText, today);
    AddByReply(ts + [t], natural, desc, dueText, today);
    AppendTwo(ts, t, u);
  }

  lemma AppendTwo<T>(xs: seq<T>, a: T, b: T)
    ensures xs + [a] + [b] == xs + [a, b]
  {
  }

  /** A "tomorrow" due text resolves to the day after today. */
  lemma VoiceTomorrow(today: Day)
    ensures DueDates.ResolveVoiceDue("tomorrow", today) == Some(today + 1)
  {
    assert Lower("tomorrow") == "tomorrow";
    ContainsNeedsChar("tomorrow", "today", 'd');
    assert OccursAt("tomorrow", "tomorrow", 0);
  }

  /** "tomorrow" survives the action-line format. */
  lemma TomorrowIsWord()
    ensures IsWord("tomorrow")
  {
    assert "tomorrow"[0] == 't' && "tomorrow"[7] == 'w';
  }

  /** The voice task for "Submit report" due "tomorrow" on a list of n tasks. */
  lemma SubmitReportTask(n: nat, desc: string, today: Day)
    requires Lower(desc) == "submit report"
    ensures VoiceTask(n, desc, "tomorrow", today) == Task(n + 1, desc, Some(today + 1), Medium, "personal", Pending)
  {
    VoiceTomorrow(today);
    ClassifyFacts.NoProjectKeyword(Lower(desc), 'w', 'g', 'j');
    ClassifyFacts.DocumentAndVoiceDefaults(desc);
  }

  /**
   * "Submit report" due "tomorrow" on an empty list: one pending task with
   * id 1, priority Medium, due the day after today, and type "personal",
   * since the voice path looks only for work, meeting and project.
   */
  lemma SubmitReportExample(ts: seq<Task>, natural: seq<string>, desc: string, today: Day)
    requires ts == [] && Lower(desc) == "submit report" && IsWord(desc)
    requires forall i :: 0 <= i < |natural| ==> '\n' !in natural[i] && !IsActionLine(natural[i])
    ensures var reply := Join(natural + [Render("ADD_TASK", AddParams(desc, "tomorrow"))], "\n");
      var t := Task(1, desc, Some(today + 1), Medium, "personal", Pending);
      Reaction(ts, reply, today) == (TaskAdded(t), ts + [t])
  {
    TomorrowIsWord();
    AddByReply(ts, natural, desc, "tomorrow", today);
    SubmitReportTask(|ts|, desc, today);
  }

  /** COMPLETE_TASK for "call John" on a list holding only "Buy milk" changes nothing. */
  lemma CompleteUnknownExample(a: Task, d: Directive, today: Day)
    requires a.description == "Buy milk"
    requires d.verb == "COMPLETE_TASK" && "DESCRIPTION" in d.params && d.params["DESCRIPTION"] == "call John"
    ensures Effect([a], d, today) == (NoPendingMatch("call John"), [a])
  {
    assert |Lower(a.description)| != |Lower("call John")|;
    assert !PendingMatch([a][0], "call John");
    CompleteFirstPendingMatch([a], "call John");
  }

  /** The listing of two tasks, one test at a time. */
  lemma ListedPair(a: Task, b: Task, filter: string, today: Day)
    ensures ListedTasks([a, b], filter, today)
         == (if Listed(a, filter, today) then [a] else []) + (if Listed(b, filter, today) then [b] else [])
  {
    assert [a, b][..1] == [a] && [a][..0] == [];
    assert ListedTasks([a], filter, today) == (if Listed(a, filter, today) then [a] else []);
  }

  /**
   * With one pending task due yesterday and one due tomorrow, "overdue"
   * lists the first, "today" lists neither, and "all" lists both.
   */
  lemma ListFiltersExample(a: Task, b: Task, today: Day)
    requires a.status == Pending && a.due == Some(today - 1)
    requires b.status == Pending && b.due == Some(today + 1)
    ensures ListedTasks([a, b], "overdue", today) == [a]
    ensures ListedTasks([a, b], "today", today) == []
    ensures ListedTasks([a, b], "all", today) == [a, b]
  {
    ListedPair(a, b, "overdue", today);
    ListedPair(a, b, "today", today);
    ListedPair(a, b, "all", today);
  }
}
