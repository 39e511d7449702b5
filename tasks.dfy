/**
 * The tasks of the smart to-do list and the pure rules about them: how a
 * task is built on each add path, which display section it falls in, and
 * the field edits the task buttons make.
 */
module Tasks {
  import opened Wrappers
  import opened Text
  import opened Lists
  import opened Calendar
  import opened Classify
  import DueDates

  datatype Status = Pending | Completed

  /** The priority choices of the form: "None", "Low", "Medium", "High". */
  datatype Priority = NoPriority | Low | Medium | High

  datatype Task = Task(
    id: int,
    description: string,
    due: Option<Day>,
    priority: Priority,
    category: string,
    status: Status)

  /** One mood check-in; its timestamp plays no part in any rule and is left out. */
  datatype MoodEntry = MoodEntry(mood: string, sleep: string, focus: string)

  /** The four types the keyword chains hand out. */
  const TaskTypes: set<string> := {"work", "admin", "emotional", "personal"}

  /** A task is overdue when it is pending and its due date has passed. */
  predicate IsOverdue(t: Task, today: Day)
  {
    t.status == Pending && t.due.Some? && t.due.value < today
  }

  /** The three lists of the task display. */
  datatype Section = CompletedSection | OverdueSection | UpcomingSection

  /** The display loop's test chain for one task. */
  function SectionOf(t: Task, today: Day): Section
  {
    if t.status == Completed then CompletedSection
    else if t.due.Some? && t.due.value < today && t.status == Pending then OverdueSection
    else UpcomingSection
  }

  /** The tasks shown in one section, in store order. */
  function InSection(ts: seq<Task>, today: Day, s: Section): seq<Task>
  {
    Filter(ts, (t: Task) => SectionOf(t, today) == s)
  }

  /** The task the "Save Task" form appends to a list of n tasks. */
  function ManualTask(n: nat, description: string, due: Option<Day>, priority: Priority): Task
  {
    Task(n + 1, description, due, priority, ManualTaskType(description), Pending)
  }

  /** The task a suggestion from a document analysis appends. */
  function DocumentTask(n: nat, description: string, due: Option<Day>): Task
  {
    Task(n + 1, description, due, Medium, DocumentTaskType(description), Pending)
  }

  /** The task a suggestion from a brain dump appends. */
  function BrainDumpTask(n: nat, description: string, due: Option<Day>): Task
  {
    Task(n + 1, description, due, Medium, BrainDumpTaskType(description), Pending)
  }

  /** The task an ADD_TASK directive appends; its due text is resolved on today. */
  function VoiceTask(n: nat, description: string, dueText: string, today: Day): Task
  {
    Task(n + 1, description, DueDates.ResolveVoiceDue(dueText, today), Medium,
         VoiceTaskType(description), Pending)
  }

  /** A suggested task scraped from an analysis: its description and due date. */
  datatype Suggestion = Suggestion(description: string, due: Option<Day>)

  /** A document suggestion from its scraped description and due text. */
  function DocumentSuggestion(descText: string, dueText: string): Suggestion
  {
    Suggestion(Strip(descText), DueDates.DocumentDue(dueText))
  }

  /** A brain-dump suggestion from its scraped description and optional due text. */
  function BrainDumpSuggestion(descText: string, dueText: Option<string>, today: Day): Suggestion
  {
    Suggestion(Strip(descText),
               match dueText
               case None => None
               case Some(text) => DueDates.BrainDumpDue(text, today))
  }

  /** task['status'] = s on the task at position i; nothing else changes. */
  function SetStatus(ts: seq<Task>, i: nat, s: Status): (r: seq<Task>)
    requires i < |ts|
    ensures |r| == |ts| && r[i].status == s
    ensures r[i].(status := ts[i].status) == ts[i]
    ensures forall j :: 0 <= j < |ts| && j != i ==> r[j] == ts[j]
  {
    ts[i := ts[i].(status := s)]
  }

  /** task['due_date'] = d on the task at position i; nothing else changes. */
  function SetDue(ts: seq<Task>, i: nat, d: Day): (r: seq<Task>)
    requires i < |ts|
    ensures |r| == |ts| && r[i].due == Some(d)
    ensures r[i].(due := ts[i].due) == ts[i]
    ensures forall j :: 0 <= j < |ts| && j != i ==> r[j] == ts[j]
  {
    ts[i := ts[i].(due := Some(d))]
  }

  /** [t for t in tasks if t['id'] != id] */
  function WithoutId(ts: seq<Task>, id: int): seq<Task>
  {
    Filter(ts, (t: Task) => t.id != id)
  }

  /** Every task carries one of the types the keyword chains hand out. */
  predicate KnownTypes(ts: seq<Task>)
  {
    forall i :: 0 <= i < |ts| ==> ts[i].category in TaskTypes
  }
}

/** What the task rules promise, proved about the functions above. */
module TaskFacts {
  import opened Wrappers
  import opened Lists
  import opened Calendar
  import opened Classify
  import opened ClassifyFacts
  import opened Tasks

  /** The display puts a task in the overdue list exactly when it is overdue. */
  lemma OverdueSectionIff(t: Task, today: Day)
    ensures SectionOf(t, today) == OverdueSection <==> IsOverdue(t, today)
    ensures SectionOf(t, today) == CompletedSection <==> t.status == Completed
    ensures SectionOf(t, today) == UpcomingSection <==> t.status == Pending && !IsOverdue(t, today)
  {
  }

  /**
   * The three sections split the store: every task is counted in exactly
   * one of them, as often as it occurs in the store.
   */
  lemma SectionsPartition(ts: seq<Task>, today: Day)
    ensures multiset(InSection(ts, today, CompletedSection))
            + multiset(InSection(ts, today, OverdueSection))
            + multiset(InSection(ts, today, UpcomingSection)) == multiset(ts)
  {
    forall t: Task
      ensures (multiset(InSection(ts, today, CompletedSection))
               + multiset(InSection(ts, today, OverdueSection))
               + multiset(InSection(ts, today, UpcomingSection)))[t] == multiset(ts)[t]
    {
      FilterCount(ts, (t: Task) => SectionOf(t, today) == CompletedSection, t);
      FilterCount(ts, (t: Task) => SectionOf(t, today) == OverdueSection, t);
      FilterCount(ts, (t: Task) => SectionOf(t, today) == UpcomingSection, t);
    }
  }

  /** A section lists exactly the store's tasks of that section. */
  lemma InSectionMembers(ts: seq<Task>, today: Day, s: Section, t: Task)
    ensures t in InSection(ts, today, s) <==> t in ts && SectionOf(t, today) == s
  {
    FilterCount(ts, (t: Task) => SectionOf(t, today) == s, t);
  }

  /** Sections keep store order: the sections of a concatenation are concatenated. */
  lemma InSectionAppend(ts: seq<Task>, us: seq<Task>, today: Day, s: Section)
    ensures InSection(ts + us, today, s) == InSection(ts, today, s) + InSection(us, today, s)
  {
    FilterAppend(ts, us, (t: Task) => SectionOf(t, today) == s);
  }

  /** "Move to Today" and "Move to Tomorrow" take a task out of the overdue list. */
  lemma MoveEndsOverdue(ts: seq<Task>, i: nat, today: Day, days: nat)
    requires i < |ts| && days <= 1
    ensures !IsOverdue(SetDue(ts, i, today + days)[i], today)
  {
  }

  /** "Mark Completed" moves a task to the completed list; "Mark Pending" moves it back. */
  lemma StatusSection(ts: seq<Task>, i: nat, today: Day)
    requires i < |ts|
    ensures SectionOf(SetStatus(ts, i, Completed)[i], today) == CompletedSection
    ensures SectionOf(SetStatus(ts, i, Pending)[i], today) != CompletedSection
  {
  }

  /**
   * Completing a task and then marking it pending again gives back the
   * store it started from, when the task was pending.
   */
  lemma CompleteThenReopen(ts: seq<Task>, i: nat)
    requires i < |ts| && ts[i].status == Pending
    ensures SetStatus(SetStatus(ts, i, Completed), i, Pending) == ts
  {
    var r := SetStatus(SetStatus(ts, i, Completed), i, Pending);
    assert forall j :: 0 <= j < |ts| ==> r[j] == ts[j];
  }

  /** Delete keeps exactly the tasks with another id, in order and with their multiplicity. */
  lemma WithoutIdKeeps(ts: seq<Task>, id: int, t: Task)
    ensures multiset(WithoutId(ts, id))[t] == if t.id != id then multiset(ts)[t] else 0
    ensures WithoutId(ts + [t], id) == WithoutId(ts, id) + (if t.id != id then [t] else [])
  {
    FilterCount(ts, (t: Task) => t.id != id, t);
    FilterAppend(ts, [t], (t: Task) => t.id != id);
  }

  /** Every add path hands out one of the four known types. */
  lemma NewTaskTypes(n: nat, description: string, due: Option<Day>, priority: Priority,
                     dueText: string, today: Day)
    ensures ManualTask(n, description, due, priority).category in TaskTypes
    ensures DocumentTask(n, description, due).category in {"work", "admin"}
    ensures BrainDumpTask(n, description, due).category in {"work", "admin", "personal"}
    ensures VoiceTask(n, description, dueText, today).category in {"work", "personal"}
  {
    ManualChain(description);
    BrainDumpIsManualWithoutEmotional(description);
    DocumentAndVoiceDefaults(description);
  }

  /** Appending a task of a known type keeps every type known. */
  lemma KnownTypesAppend(ts: seq<Task>, t: Task)
    requires KnownTypes(ts) && t.category in TaskTypes
    ensures KnownTypes(ts + [t])
  {
    assert forall i :: 0 <= i < |ts| ==> (ts + [t])[i] == ts[i];
  }

  /** Edits and deletes keep every type known. */
  lemma KnownTypesEdits(ts: seq<Task>, i: nat, s: Status, d: Day, id: int)
    requires KnownTypes(ts) && i < |ts|
    ensures KnownTypes(SetStatus(ts, i, s)) && KnownTypes(SetDue(ts, i, d))
    ensures KnownTypes(WithoutId(ts, id))
  {
    var r := WithoutId(ts, id);
    forall j | 0 <= j < |r|
      ensures r[j].category in TaskTypes
    {
      assert r[j] in ts;
    }
  }

  /** Two tasks with ids 1 and 2, the first deleted, then a third with id 2: both left share it. */
  lemma DeleteThenAdd(a: Task, b: Task, c: Task)
    requires a.id == 1 && b.id == 2 && c.id == 2
    ensures WithoutId([a, b], 1) == [b]
    ensures WithoutId([b, c], 2) == []
  {
    assert [a, b][..1] == [a] && [a][..0] == [];
    assert WithoutId([a], 1) == [];
    assert WithoutId([a, b], 1) == WithoutId([a], 1) + [b];
    assert [b, c][..1] == [b] && [b][..0] == [];
    assert WithoutId([b], 2) == [];
    assert WithoutId([b, c], 2) == WithoutId([b], 2) + [];
  }

  /**
   * Ids are the list length plus one, so after a delete the next add can
   * reuse the id of a task still in the list: two adds, a delete of the
   * first, and a third add leave two tasks with id 2, and deleting that id
   * removes both.
   */
  lemma IdReuseAfterDelete(d1: string, d2: string, d3: string, due: Option<Day>, p: Priority)
    ensures var a := ManualTask(0, d1, due, p);
      var b := ManualTask(1, d2, due, p);
      var kept := WithoutId([a, b], a.id);
      var after := kept + [ManualTask(|kept|, d3, due, p)];
      |after| == 2 && after[0].id == after[1].id == 2 && WithoutId(after, 2) == []
  {
    var a := ManualTask(0, d1, due, p);
    var b := ManualTask(1, d2, due, p);
    var c := ManualTask(1, d3, due, p);
    DeleteThenAdd(a, b, c);
    assert [b] + [c] == [b, c];
  }
}
