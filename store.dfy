/**
 * The session's task list and mood log, as an object whose methods are the
 * dashboard's buttons: the three add paths of the forms, the display
 * partition, the edits of a shown task, delete, and the mood check-in.
 */
module Store {
  import opened Wrappers
  import opened Lists
  import opened Calendar
  import opened Tasks
  import TaskFacts

  class TaskStore {
    var tasks: seq<Task>
    var moodLog: seq<MoodEntry>

    /** A fresh session: no tasks, no check-ins. */
    constructor()
      ensures tasks == [] && moodLog == []
    {
      tasks := [];
      moodLog := [];
    }

    /**
     * "Save Task": an empty description is refused and changes nothing;
     * otherwise one pending task with the next id and the manual chain's
     * type is appended.
     */
    method SaveTask(description: string, due: Option<Day>, priority: Priority) returns (added: bool)
      modifies this
      ensures added <==> description != []
      ensures tasks == if added then old(tasks) + [ManualTask(|old(tasks)|, description, due, priority)]
                       else old(tasks)
      ensures moodLog == old(moodLog)
      ensures KnownTypes(old(tasks)) ==> KnownTypes(tasks)
    {
      if description == [] {
        added := false;
      } else {
        var t := ManualTask(|tasks|, description, due, priority);
        TaskFacts.NewTaskTypes(|tasks|, description, due, priority, [], 0);
        if KnownTypes(tasks) {
          TaskFacts.KnownTypesAppend(tasks, t);
        }
        tasks := tasks + [t];
        added := true;
      }
    }

    /** "Add Task" on a document suggestion: priority Medium, the document chain's type. */
    method AddDocumentSuggestion(s: Suggestion)
      modifies this
      ensures tasks == old(tasks) + [DocumentTask(|old(tasks)|, s.description, s.due)]
      ensures moodLog == old(moodLog)
      ensures KnownTypes(old(tasks)) ==> KnownTypes(tasks)
    {
      var t := DocumentTask(|tasks|, s.description, s.due);
      TaskFacts.NewTaskTypes(|tasks|, s.description, s.due, Medium, [], 0);
      if KnownTypes(tasks) {
        TaskFacts.KnownTypesAppend(tasks, t);
      }
      tasks := tasks + [t];
    }

    /** "Add" on a brain-dump suggestion: priority Medium, the brain-dump chain's type. */
    method AddBrainDumpSuggestion(s: Suggestion)
      modifies this
      ensures tasks == old(tasks) + [BrainDumpTask(|old(tasks)|, s.description, s.due)]
      ensures moodLog == old(moodLog)
      ensures KnownTypes(old(tasks)) ==> KnownTypes(tasks)
    {
      var t := BrainDumpTask(|tasks|, s.description, s.due);
      TaskFacts.NewTaskTypes(|tasks|, s.description, s.due, Medium, [], 0);
      if KnownTypes(tasks) {
        TaskFacts.KnownTypesAppend(tasks, t);
      }
      tasks := tasks + [t];
    }

    /** An ADD_TASK directive: priority Medium, the voice chain's type, the due text resolved on today. */
    method AddVoiceTask(description: string, dueText: string, today: Day)
      modifies this
      ensures tasks == old(tasks) + [VoiceTask(|old(tasks)|, description, dueText, today)]
      ensures moodLog == old(moodLog)
      ensures KnownTypes(old(tasks)) ==> KnownTypes(tasks)
    {
      var t := VoiceTask(|tasks|, description, dueText, today);
      TaskFacts.NewTaskTypes(|tasks|, description, None, Medium, dueText, today);
      if KnownTypes(tasks) {
        TaskFacts.KnownTypesAppend(tasks, t);
      }
      tasks := tasks + [t];
    }

    /**
     * The display loop: each task goes to the completed, the overdue or
     * the upcoming list, in store order.
     */
    method Partition(today: Day) returns (overdue: seq<Task>, upcoming: seq<Task>, completed: seq<Task>)
      ensures completed == InSection(tasks, today, CompletedSection)
      ensures overdue == InSection(tasks, today, OverdueSection)
      ensures upcoming == InSection(tasks, today, UpcomingSection)
    {
      overdue, upcoming, completed := [], [], [];
      var i := 0;
      while i < |tasks|
        invariant 0 <= i <= |tasks|
        invariant completed == InSection(tasks[..i], today, CompletedSection)
        invariant overdue == InSection(tasks[..i], today, OverdueSection)
        invariant upcoming == InSection(tasks[..i], today, UpcomingSection)
      {
        var t := tasks[i];
        assert tasks[..i + 1][..i] == tasks[..i];
        if t.status == Completed {
          completed := completed + [t];
        } else if t.due.Some? && t.due.value < today && t.status == Pending {
          overdue := overdue + [t];
        } else {
          upcoming := upcoming + [t];
        }
        i := i + 1;
      }
      assert tasks[..i] == tasks;
    }

    /** "Mark Completed" on the task at position i. */
    method MarkCompleted(i: nat)
      requires i < |tasks|
      modifies this
      ensures tasks == SetStatus(old(tasks), i, Completed)
      ensures moodLog == old(moodLog)
    {
      tasks := SetStatus(tasks, i, Completed);
    }

    /** "Mark Pending" on a completed task at position i. */
    method MarkPending(i: nat)
      requires i < |tasks|
      modifies this
      ensures tasks == SetStatus(old(tasks), i, Pending)
      ensures moodLog == old(moodLog)
    {
      tasks := SetStatus(tasks, i, Pending);
    }

    /** "Move to Today" on an overdue task at position i. */
    method MoveToToday(i: nat, today: Day)
      requires i < |tasks|
      modifies this
      ensures tasks == SetDue(old(tasks), i, today)
      ensures !IsOverdue(tasks[i], today)
      ensures moodLog == old(moodLog)
    {
      tasks := SetDue(tasks, i, today);
    }

    /** "Move to Tomorrow" on an overdue task at position i. */
    method MoveToTomorrow(i: nat, today: Day)
      requires i < |tasks|
      modifies this
      ensures tasks == SetDue(old(tasks), i, today + 1)
      ensures !IsOverdue(tasks[i], today)
      ensures moodLog == old(moodLog)
    {
      tasks := SetDue(tasks, i, today + 1);
    }

    /** "Delete": every task carrying the id of the chosen one is dropped. */
    method Delete(id: int)
      modifies this
      ensures tasks == WithoutId(old(tasks), id)
      ensures moodLog == old(moodLog)
    {
      tasks := WithoutId(tasks, id);
    }

    /**
     * "Log Mood & Energy": a check-in is appended only when a mood has
     * been selected; the sleep and focus answers always have a value.
     */
    method LogMood(selection: Option<string>, sleep: string, focus: string) returns (logged: bool)
      modifies this
      ensures logged <==> selection.Some? && selection.value != []
      ensures moodLog == if logged then old(moodLog) + [MoodEntry(selection.value, sleep, focus)]
                         else old(moodLog)
      ensures tasks == old(tasks)
    {
      if selection.Some? && selection.value != [] {
        moodLog := moodLog + [MoodEntry(selection.value, sleep, focus)];
        logged := true;
      } else {
        logged := false;
      }
    }
  }
}
