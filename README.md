# Me & You task core, in Dafny

A verified model of the deterministic logic inside the "Me & You" smart to-do
dashboard. The rest of that program is Streamlit and Flask wiring around
OpenAI calls. The model covers:

- **`auto_classify_task_type` and `parse_due_date_from_string`** (`test_app.py`).
  These are the keyword classifier and the free-text due-date resolver. A
  date is a day number with a weekday. `YYYY-MM-DD` is read through a
  civil-date check that includes leap years.
- **The session's task list and mood log** (`app.py`), as the class
  `Store.TaskStore`. It covers:
  - the four add paths (the "Save Task" form, document suggestions,
    brain-dump suggestions, the assistant's ADD_TASK), each with its own
    keyword chain and defaults;
  - the display partition into completed, overdue and other tasks;
  - the task buttons (mark completed, mark pending, move to today or
    tomorrow, delete);
  - the mood check-in.
- **`display_nudges`** (`app.py`): due-soon notices, the overdue summary, the
  kitchen-before-company nudge and the mood nudge.
- **The assistant's reply handling** (`app.py`):
  - the reply is split into its natural text and its last `ACTION:` line;
  - the line is parsed into a verb and a `KEY: value` table;
  - ADD_TASK, COMPLETE_TASK, LIST_TASKS, CHECK_STATUS and GENERAL_QUERY are
    carried out against the task list.
- **`get_ai_task_classification`** (`me_and_you_backend/ai_utils.py`). The
  OpenAI client is an optional oracle from prompts to optional replies. An
  absent oracle means no client, and an absent reply means the call raised.

Files:
- `wrappers.dfy`: `Option`.
- `text.dfy`: Python's `in`, `lower()`, `strip()`, `split()`, `splitlines()`
  and `replace(x, "")` on strings.
- `lists.dfy`: filtering, first match and last match.
- `calendar.dfy`: day numbers, weekdays, civil dates and the ISO date parse.
- `classify.dfy`: the keyword chains.
- `due_dates.dfy`: the resolvers.
- `ai_utils.dfy`: the classification-reply normaliser.
- `tasks.dfy`: tasks and the pure task rules.
- `store.dfy`: the task store class.
- `nudges.dfy`: the nudges.
- `directives.dfy`: reply and action-line parsing.
- `assistant.dfy`: carrying out an action.

`today` is always a parameter.

The assistant's add path (app.py:816-817) looks only for "work", "meeting"
and "project", unlike the manual form's five-keyword list (app.py:111). So
`ACTION: ADD_TASK | DESCRIPTION: Submit report | DUE_DATE_STR: tomorrow` adds
a task of type "personal"; `AssistantFacts.SubmitReportExample` proves it.

## Model

| member | source | states |
|---|---|---|
| Calendar.NextWeekday | test_app.py:55-62 | the date for a weekday lies 1 to 7 days after today, has that weekday, and no day in between has it |
| Calendar.ParseIsoFields | test_app.py:47-50 | a parsed date is a valid civil date whose zero-padded `YYYY-MM-DD` form is exactly the input |
| Calendar.ParseFormatIso | test_app.py:47-50 | every valid date written as `YYYY-MM-DD` is read back as itself |
| Calendar.OrdinalInjective | test_app.py:47-50 | two valid dates with the same day number are the same date |
| Calendar.OrdinalMonotone | test_app.py:47-50 | an earlier valid date has a smaller day number |
| Calendar.ReadPadded | test_app.py:47-50 | a number written zero-padded to a width that fits it is all digits of that width and reads back as the number |
| Calendar.PadRead | test_app.py:47-50 | a digit string is the zero-padded form of its own value |
| Classify.MentionsAny | test_app.py:11 | `any(k in s for k in keywords)`: true exactly when some keyword occurs in the text |
| Classify.Classification | test_app.py:9-17 | a chain returns its default or the category of one of its rules |
| Classify.ManualTaskType | test_app.py:9-17 | `auto_classify_task_type`, which the "Save Task" form repeats inline (app.py:108-116); `ClassifyFacts.ManualChain` states its four outcomes |
| Classify.DocumentTaskType | app.py:377-380 | the document path's chain; `ClassifyFacts.DocumentAndVoiceDefaults` states it |
| Classify.BrainDumpTaskType | app.py:628-633 | the brain-dump path's chain; `ClassifyFacts.BrainDumpIsManualWithoutEmotional` relates it to the manual chain |
| Classify.VoiceTaskType | app.py:816-817 | the assistant's chain; `ClassifyFacts.DocumentAndVoiceDefaults` and `VoiceWorkIsManualWork` state it |
| ClassifyFacts.ClassificationFirstMatch | test_app.py:11-16 | the first rule whose keywords occur decides, whatever later rules match |
| ClassifyFacts.ClassificationFallback | test_app.py:17 | with no rule matching, the default is returned |
| ClassifyFacts.ManualChain | test_app.py:9-17 | work iff a work keyword occurs; admin iff no work but an admin keyword; emotional iff neither but an emotional keyword; personal iff none |
| ClassifyFacts.BrainDumpIsManualWithoutEmotional | app.py:628-633 | the brain-dump type is the manual type with "emotional" replaced by "personal" |
| ClassifyFacts.DocumentAndVoiceDefaults | app.py:377-380 | the document path gives work on work/meeting/project and admin otherwise; the voice path gives work or personal on the same test |
| ClassifyFacts.VoiceWorkIsManualWork | app.py:816-817 | a voice task of type work would also be work on the manual form |
| ClassifyFacts.EmailOnlyOnLongList | app.py:816-817 | "send email" is work on the manual form, but personal on the voice path and admin on the document path |
| ClassifyFacts.WorkMeetingExample | test_app.py:20 | "Schedule a work meeting" is work |
| ClassifyFacts.ElectricityBillExample | test_app.py:21 | "Pay electricity bill" is admin |
| ClassifyFacts.RunExample | test_app.py:22 | "Go for a run" is personal |
| ClassifyFacts.FeelingsExample | test_app.py:23 | "Reflect on feelings" is emotional on the manual form, personal on the brain-dump and voice paths, admin on the document path |
| ClassifyFacts.ProjectDeadlineExample | test_app.py:24 | "Project deadline approaching" is work |
| ClassifyFacts.DoctorAppointmentExample | test_app.py:25 | "Book doctor appointment" is admin |
| ClassifyFacts.CallMomExample | test_app.py:26 | "Call mom" is personal |
| DueDates.FirstWeekdayMention | test_app.py:55-57 | the Monday-first index of the first weekday name that occurs, and none of the earlier names occurs |
| DueDates.ResolveDuePhrase | test_app.py:32-64 | `parse_due_date_from_string`; `DueDateFacts.ResolveRelativeFirst`, `ResolveIsoDate`, `ResolveNamedWeekday`, `ResolveNothingNamed` and `ResolveWithinWeek` state what it resolves |
| DueDates.ResolveVoiceDue | app.py:785-813 | the ADD_TASK due text resolver; `DueDateFacts.VoiceResolveIsoDate`, `VoiceNeverResolvesNotSpecified` and `VoiceAgreesWithResolver` state what it resolves |
| DueDates.DocumentDue | app.py:359-364 | a document suggestion's due date; `DueDateFacts.DocumentDueIsIsoDate` states it is the ISO date of the stripped text |
| DueDates.BrainDumpDue | app.py:601-616 | a brain-dump suggestion's due date; `DueDateFacts.BrainDumpDueCases` states its three cases |
| DueDates.IndexOfName | app.py:806-807 | the position of an exact weekday name in the list |
| DueDateFacts.WeekdayNameFirstMention | test_app.py:55-57 | a bare weekday name mentions no earlier weekday name |
| DueDateFacts.ResolveRelativeFirst | test_app.py:39-44 | "today", "tomorrow" and "next week" give today, today+1 and today+7, tested in that order |
| DueDateFacts.ResolveNamedWeekday | test_app.py:53-62 | with no earlier rule applying, the first weekday named gives a date 1 to 7 days ahead with that weekday, the nearest such |
| DueDateFacts.ResolveNothingNamed | test_app.py:64 | a phrase no rule applies to resolves to nothing |
| DueDateFacts.ResolveWithinWeek | test_app.py:32-64 | any resolved date is the phrase's own ISO date or lies within the coming week |
| DueDateFacts.IsoTextHasNoLetters | test_app.py:39-44 | a valid date's `YYYY-MM-DD` text is ten characters with no letter, so lower-casing leaves it alone and no keyword rule fires on it |
| DueDateFacts.ResolveIsoDate | test_app.py:37-50 | the `YYYY-MM-DD` text of every valid date resolves to that date, on every today |
| DueDateFacts.VoiceResolveIsoDate | app.py:788-800 | the voice path resolves the `YYYY-MM-DD` text of every valid date to that date, on every today |
| DueDateFacts.VoiceNeverResolvesNotSpecified | app.py:788 | the voice path resolves "not specified" to nothing, though it has no rule for it |
| DueDateFacts.VoiceAgreesWithResolver | app.py:788-813 | whenever the voice path finds a date, the resolver of test_app.py finds the same one |
| DueDateFacts.DocumentDueIsIsoDate | app.py:359-364 | a document suggestion's due date is the ISO date of the stripped due text, if it is one |
| DueDateFacts.BrainDumpDueCases | app.py:601-616 | a brain-dump due date is today for "today", today+1 for "tomorrow" (whole text, any case), else the ISO date of the text |
| DueDateFacts.ParsedLooksLikeDate | app.py:612-613 | text the date parse accepts passes the brain-dump path's date-shape check |
| DueDateFacts.ResolveTodayExample | test_app.py:72-73 | "today" resolves to today |
| DueDateFacts.ResolveTomorrowExample | test_app.py:75-76 | "tomorrow" resolves to today+1 |
| DueDateFacts.ResolveNextWeekExample | test_app.py:78-79 | "next week" resolves to today+7 |
| DueDateFacts.ChristmasParses | test_app.py:82 | "2024-12-25" parses to that civil date |
| DueDateFacts.ResolveExactDateExample | test_app.py:81-82 | "2024-12-25" resolves to that date |
| DueDateFacts.ThisFridayExample | test_app.py:92-104 | "this Friday" resolves to the next Friday after today |
| DueDateFacts.BareFridayExample | test_app.py:84-90 | "Friday" resolves to the next Friday on both paths |
| DueDateFacts.VoiceThisFridayExample | app.py:806 | the voice path matches names exactly, so "this Friday" resolves to nothing there |
| DueDateFacts.ResolvePlaceholderExamples | test_app.py:107-114 | "", "N/A", "not specified" and "Not Specified" resolve to nothing |
| DueDateFacts.ResolveUnmatchedExample | test_app.py:116-117 | "some random string" resolves to nothing |
| AiClassification.Accept | me_and_you_backend/ai_utils.py:26-35 | the accepted classification is always one of the eleven categories |
| AiClassification.TaskClassification | me_and_you_backend/ai_utils.py:3-38 | the result is always one of the eleven categories |
| AiClassificationFacts.NoClientIsGeneral | me_and_you_backend/ai_utils.py:8-10 | without a client the result is "general" |
| AiClassificationFacts.FailedCallIsGeneral | me_and_you_backend/ai_utils.py:36-38 | a failed call gives "general" |
| AiClassificationFacts.ReplyDecides | me_and_you_backend/ai_utils.py:26-35 | the normalised reply is returned when it is a category, otherwise "general" |
| AiClassificationFacts.CategoryReplyKept | me_and_you_backend/ai_utils.py:31-35 | a reply that is a category in normal form is the result |
| AiClassificationFacts.NormalisedHasNoQuotes | me_and_you_backend/ai_utils.py:29 | a normalised reply holds no `"` and no `'` |
| AiClassificationFacts.ResultHasNoQuotes | me_and_you_backend/ai_utils.py:3-38 | no result holds a quote character |
| AiClassificationFacts.QuotedCategory | me_and_you_backend/ai_utils.py:26-29 | a lower-case word in double or single quotes normalises to the word |
| AiClassificationFacts.BareCategory | me_and_you_backend/ai_utils.py:26-29 | a stripped lower-case word without quotes normalises to itself |
| AiClassificationFacts.WorkReplyExample | me_and_you_backend/tests/test_ai_utils.py:23-35 | the reply "work" is returned as it is |
| AiClassificationFacts.PersonalReplyExample | me_and_you_backend/tests/test_ai_utils.py:37-44 | the reply "personal" is returned as it is |
| AiClassificationFacts.UnexpectedReplyExample | me_and_you_backend/tests/test_ai_utils.py:46-53 | "unexpected_category" gives "general" |
| AiClassificationFacts.DoubleQuotedReplyExample | me_and_you_backend/tests/test_ai_utils.py:71-76 | the reply `"home"` gives home |
| AiClassificationFacts.SingleQuotedReplyExample | me_and_you_backend/tests/test_ai_utils.py:77-81 | the reply `'finance'` gives finance |
| AiClassification.Normalise | me_and_you_backend/ai_utils.py:26-29 | strip, lower-case and drop quotes; `AiClassificationFacts.NormalisedHasNoQuotes`, `QuotedCategory` and `BareCategory` state what it yields |
| AiClassification.Prompt | me_and_you_backend/ai_utils.py:13-15 | the user prompt; `AiClassificationFacts.PromptContents` states what it holds |
| AiClassificationFacts.PromptContents | me_and_you_backend/ai_utils.py:13-15 | the prompt holds `Task: "<description>"`, the category list and "Category:" |
| Tasks.IsOverdue | app.py:147 | pending with a due date before today; `TaskFacts.OverdueSectionIff` ties it to the display |
| Tasks.SectionOf | app.py:144-150 | the display loop's test chain for one task; `TaskFacts.OverdueSectionIff` and `SectionsPartition` state it |
| Tasks.ManualTask | app.py:118-125 | the task the "Save Task" form builds; `Store.TaskStore.SaveTask` and `TaskFacts.NewTaskTypes` state it |
| Tasks.DocumentTask | app.py:382-389 | the task a document suggestion builds; `Store.TaskStore.AddDocumentSuggestion` and `TaskFacts.NewTaskTypes` state it |
| Tasks.BrainDumpTask | app.py:635-642 | the task a brain-dump suggestion builds; `Store.TaskStore.AddBrainDumpSuggestion` and `TaskFacts.NewTaskTypes` state it |
| Tasks.VoiceTask | app.py:819-822 | the task an ADD_TASK builds; `AssistantFacts.AddTaskIff` states it |
| Tasks.DocumentSuggestion | app.py:356-365 | a scraped document suggestion: stripped description and `DocumentDue` of the due text |
| Tasks.BrainDumpSuggestion | app.py:596-617 | a scraped brain-dump suggestion: stripped description and `BrainDumpDue` of the due text, if any |
| Tasks.WithoutId | app.py:196 | the delete comprehension; `TaskFacts.WithoutIdKeeps` states what it keeps |
| Tasks.SetStatus | app.py:161-162 | the status of one task is set; every other field and every other task stays as it was |
| Tasks.SetDue | app.py:164-168 | the due date of one task is set; every other field and every other task stays as it was |
| TaskFacts.OverdueSectionIff | app.py:144-150 | a task is shown as overdue iff it is pending and due before today; as completed iff completed; otherwise as upcoming |
| TaskFacts.SectionsPartition | app.py:144-150 | the three display lists together hold every task of the store exactly as often as the store does |
| TaskFacts.InSectionMembers | app.py:144-150 | a display list holds exactly the store's tasks of that section |
| TaskFacts.InSectionAppend | app.py:144-150 | the display lists keep store order |
| TaskFacts.MoveEndsOverdue | app.py:164-168 | after "Move to Today" or "Move to Tomorrow" the task is no longer overdue |
| TaskFacts.StatusSection | app.py:190-191 | "Mark Completed" moves a task to the completed list, and "Mark Pending" takes it out |
| TaskFacts.CompleteThenReopen | app.py:210-211 | completing a pending task and marking it pending again restores the store |
| TaskFacts.WithoutIdKeeps | app.py:196 | delete keeps exactly the tasks with another id, with their multiplicity and in order |
| TaskFacts.NewTaskTypes | app.py:104-126 | each add path gives one of its own types: manual any of four, document work/admin, brain dump work/admin/personal, voice work/personal |
| TaskFacts.KnownTypesAppend | app.py:126 | appending a task of a known type keeps every type known |
| TaskFacts.KnownTypesEdits | app.py:161-196 | edits and deletes keep every type known |
| TaskFacts.IdReuseAfterDelete | app.py:119-126 | with ids built as the length plus one (app.py:119), two "Save Task" adds, a delete of the first (app.py:196) and a third add leave two tasks that both have id 2, and deleting id 2 removes both |
| Store.TaskStore.constructor | app.py:94-95 | a new session has no tasks and no check-ins |
| Store.TaskStore.SaveTask | app.py:104-126 | an empty description changes nothing; otherwise one pending task is appended with id length+1 and the manual type; the mood log is untouched; known types stay known |
| Store.TaskStore.AddDocumentSuggestion | app.py:375-390 | appends one pending Medium task with id length+1 and the document type |
| Store.TaskStore.AddBrainDumpSuggestion | app.py:627-643 | appends one pending Medium task with id length+1 and the brain-dump type |
| Store.TaskStore.AddVoiceTask | app.py:816-823 | appends one pending Medium task with id length+1, the voice type and the voice due date |
| Store.TaskStore.Partition | app.py:144-150 | the loop yields exactly the completed, overdue and upcoming display lists |
| Store.TaskStore.MarkCompleted | app.py:161-162 | only that task's status changes, to completed |
| Store.TaskStore.MarkPending | app.py:210-211 | only that task's status changes, to pending |
| Store.TaskStore.MoveToToday | app.py:164-165 | only that task's due date changes, to today, and it is no longer overdue |
| Store.TaskStore.MoveToTomorrow | app.py:167-168 | only that task's due date changes, to tomorrow, and it is no longer overdue |
| Store.TaskStore.Delete | app.py:195-196 | the store keeps the tasks with another id |
| Store.TaskStore.LogMood | app.py:449-461 | a check-in is appended iff a mood is selected; the task list is untouched |
| Nudges.NudgesFor | app.py:17-63 | the nudge list; the `NudgeFacts` lemmas below state each rule |
| Nudges.ScanContext | app.py:38-46 | the loop ends with the last pending kitchen task and the last company task due within three days |
| Nudges.DisplayNudges | app.py:17-63 | the nudges built by the function are the due-soon, overdue, context and mood nudges, in that order |
| NudgeFacts.RuleKinds | app.py:17-63 | each rule contributes only its own kind of nudge |
| NudgeFacts.DueSoonNudgesAre | app.py:23-30 | a due-soon notice exists iff some pending task with that description is due today or tomorrow, and it says which |
| NudgeFacts.DueSoonIff | app.py:23-30 | the same, about the whole nudge list |
| NudgeFacts.DueSoonAppend | app.py:23-30 | due-soon notices follow store order |
| NudgeFacts.OverdueCountZero | app.py:33-35 | the overdue count is zero iff no task is overdue |
| NudgeFacts.OverdueSummaryIff | app.py:33-37 | the overdue summary appears iff some task is overdue, and carries their count |
| NudgeFacts.ContextNudgesAre | app.py:38-52 | the context nudge appears iff there is a pending kitchen task and a company task due within three days, and it names the last of each |
| NudgeFacts.KitchenNudgeIff | app.py:38-52 | the same, about the whole nudge list |
| NudgeFacts.OnlyLastCheckInMatters | app.py:55-56 | only the last check-in affects the nudges |
| NudgeFacts.NoCheckInNoMoodNudge | app.py:55 | without check-ins there is no mood nudge |
| NudgeFacts.MoodNudgesAre | app.py:55-60 | the easy-start nudge appears iff the last check-in feels off, and it names the first pending Low task |
| NudgeFacts.EasyStartFirstLow | app.py:55-60 | the same, about the whole nudge list |
| NudgeFacts.SelfCareWithoutEasy | app.py:61-63 | the self-care nudge appears iff the last check-in feels off and no pending Low task exists |
| NudgeFacts.NoFocusFeelsOff | app.py:57 | the form's focus option "📉 Not at all" (app.py:439) reads as feeling off |
| NudgeFacts.PoorSleepFeelsOff | app.py:57 | the form's sleep option "😴 Poorly" (app.py:430) reads as feeling off |
| NudgeFacts.BuyMilkExample | app.py:17-63 | low focus with a Low "Buy milk" task and a "Clean kitchen" task gives exactly one nudge, naming "Buy milk" |
| Directives.SplitReply | app.py:752-759 | the loop yields the non-action lines in order and the last action line |
| Directives.ActionOf | app.py:752-759 | the last line starting with "ACTION:"; `Directives.SplitReply` and `DirectiveFacts.ReplyRoundTrip` state it |
| Directives.NaturalOf | app.py:752-759 | the other lines, in order; `Directives.SplitReply`, `DirectiveFacts.ReplyRoundTrip` and `NaturalLinesKept` state it |
| Directives.ParseDirective | app.py:774-781 | the verb and parameter table of an action line; `DirectiveFacts.DirectiveRoundTrip`, `TableKeys` and `TableLastWins` state it |
| Directives.NaturalDisplay | app.py:761-765 | the shown text is the stripped rejoined natural lines when non-empty, else "Got it."; never empty |
| Directives.SplitAtColon | app.py:779-780 | a segment without ':' gives no pair; otherwise the text before the first ':' and the rest |
| Directives.FillTable | app.py:777-781 | the loop fills the table of the items' entries in order, a later entry overwriting an earlier one |
| Directives.TableSnoc | app.py:779-781 | one more segment either leaves the table as it was or sets its one key |
| Directives.CollectParams | app.py:777-781 | the loop builds the table of the segments' entries |
| Directives.ReadDirective | app.py:774-781 | reading a line yields its verb and parameter table |
| DirectiveFacts.TableKeys | app.py:777-781 | a key is in the table iff some segment sets it |
| DirectiveFacts.TableLastWins | app.py:777-781 | a repeated key keeps the value of the last segment that sets it |
| DirectiveFacts.DropsColonless | app.py:780 | a segment without ':' is dropped |
| DirectiveFacts.SegmentsBar | app.py:774 | the segments of a line are the stripped text before its first bar, then the segments of the rest |
| DirectiveFacts.SegmentsOfRender | app.py:774 | a rendered line splits into its head and one `KEY: value` segment per parameter |
| DirectiveFacts.ActionTypeOfRendered | app.py:775 | the verb is read back from `ACTION: VERB` |
| DirectiveFacts.EntryOfField | app.py:779-781 | a `KEY: value` segment is read back as that key and value |
| DirectiveFacts.ParamsOfFields | app.py:777-781 | the table of rendered parameters with distinct keys maps each key to its value and holds nothing else |
| DirectiveFacts.DirectiveRoundTrip | app.py:774-781 | rendering a verb and parameters and parsing the line gives back the verb and exactly those parameters |
| DirectiveFacts.ReplyRoundTrip | app.py:752-759 | natural lines followed by an action line split back into those lines and that action |
| DirectiveFacts.ReplyLines | app.py:752 | break-free lines, the last one an action line, joined by line breaks split back into those lines |
| DirectiveFacts.NaturalLinesKept | app.py:755-759 | natural lines followed by an action line keep exactly the natural lines for display |
| DirectiveFacts.RenderIsActionLine | app.py:756 | a rendered directive is one line starting with "ACTION:" |
| Assistant.Description | app.py:784-787 | a description is taken only when present and non-empty |
| Assistant.CompleteFirst | app.py:829-840 | the loop completes the first pending task with the description, or changes nothing |
| Assistant.FindStatus | app.py:867-877 | the loop reports the first task with the description, whatever its status |
| Assistant.Execute | app.py:783-885 | the dispatch does what each action's effect says and leaves the mood log alone |
| Assistant.Respond | app.py:748-885 | an empty reply shows nothing and changes nothing (app.py:748); otherwise the text shown is the natural part, or "Got it." when that is blank, and the reply's last action line, if any, is carried out as `Reaction` says; the mood log is untouched |
| Assistant.Effect | app.py:783-885 | what one directive does to the task list; its shape is stated by `AssistantFacts.EffectShapes`, `AddTaskIff`, `CompleteFirstPendingMatch`, `ListedExactly` and `StatusOfFirstMatch` |
| Assistant.Reaction | app.py:748-885 | what one pass over a stored reply does; `AssistantFacts.AddByReply` and `RerunAddsTwice` state it for ADD_TASK replies |
| Assistant.ListedTasks | app.py:844-858 | the LIST_TASKS filter chain; `AssistantFacts.ListedExactly`, `ListOverdueIsOverdueSection`, `ListAllIsPending` and `EmptyFilterListsAll` state what it lists |
| Assistant.StatusOf | app.py:867-879 | the CHECK_STATUS report; `AssistantFacts.StatusOfFirstMatch` states that it names the first task matching ignoring case |
| AssistantFacts.EffectShapes | app.py:783-885 | a directive leaves the list as it was, appends the task it reports (ADD_TASK), or completes in place one pending task matching the directive's DESCRIPTION (COMPLETE_TASK) |
| AssistantFacts.EffectKeepsKnownTypes | app.py:783-885 | every directive keeps every task's type known |
| AssistantFacts.AddTaskIff | app.py:783-827 | ADD_TASK adds iff DESCRIPTION is present and non-empty; the task is pending, Medium, id length+1, typed by the voice chain of its description (`Classify.VoiceTaskType`), due as DUE_DATE_STR resolves |
| AssistantFacts.NotApplicableNoDue | app.py:785-788 | the default "N/A" resolves to no due date |
| AssistantFacts.AddWithoutDueText | app.py:785-788 | ADD_TASK without DUE_DATE_STR adds a task without a due date |
| AssistantFacts.CompleteFirstPendingMatch | app.py:829-842 | COMPLETE_TASK completes iff a pending task has the description ignoring case; it is the first such, and only its status changes |
| AssistantFacts.CompleteTwice | app.py:829-842 | with one pending match, a second COMPLETE_TASK finds nothing and changes nothing |
| AssistantFacts.ListedExactly | app.py:844-858 | LIST_TASKS shows exactly the store's matching tasks, each as often as stored, all pending |
| AssistantFacts.ListOverdueIsOverdueSection | app.py:852-853 | the "overdue" filter lists exactly the display's overdue list |
| AssistantFacts.ListAllIsPending | app.py:854-855 | the "all" filter lists exactly the pending tasks |
| AssistantFacts.EmptyFilterListsAll | app.py:857-858 | an empty FILTER falls to the substring search, which every task passes, so it lists what "all" lists |
| AssistantFacts.StatusOfFirstMatch | app.py:867-879 | CHECK_STATUS reports iff some task has the description ignoring case, and then the first one |
| AssistantFacts.ParsedAddLine | app.py:774-785 | the ADD_TASK line with a description and due text is read back with both |
| AssistantFacts.AddByReply | app.py:748-823 | a reply ending in an ADD_TASK line appends exactly the voice task it describes |
| AssistantFacts.RerunAddsTwice | app.py:748-823 | handling the same stored ADD_TASK reply on two passes appends two copies of the task, with ids n+1 and n+2 |
| AssistantFacts.VoiceTomorrow | app.py:790-793 | the due text "tomorrow" resolves to today+1 |
| AssistantFacts.SubmitReportTask | app.py:816-823 | "Submit report" due "tomorrow" becomes a pending Medium personal task due today+1 |
| AssistantFacts.SubmitReportExample | app.py:748-823 | the "Submit report" reply on an empty list adds exactly that task with id 1 |
| AssistantFacts.CompleteUnknownExample | app.py:829-840 | completing "call John" when only "Buy milk" exists changes nothing |
| AssistantFacts.ListFiltersExample | app.py:844-858 | with one task overdue and one due tomorrow, "overdue" lists the first, "today" neither, "all" both |

## Left out

- Streamlit rendering is not modelled: widgets, columns, messages, nudge styling, and the mood-log and task-list displays. Each operation returns what it would show as data (`Outcome`, `Nudge`), not as text.
- The OpenAI calls and prompt templates of the dashboard are not modelled. A reply is an input string. The classification call is an optional oracle; its model name, system message and token limits are left out.
- PDF, CSV and XLSX extraction is left out: these are thin wrappers over PyPDF2 and pandas.
- The regular expressions that scrape suggestions from document and brain-dump analyses (app.py:356, 596) are left out, because reproducing Python's backtracking semantics is costly. Suggestions enter as a description text and a due text. Their date handling (app.py:359-364, 601-616) is modelled.
- The Flask backend is left out: it is HTTP plumbing around `get_ai_task_classification`.
- The clock is left out: `today` is a parameter, and the mood check-in's timestamp is dropped because no rule reads it.
- Assistant.Respond: one call models one pass over the reply. The page keeps the reply until "Send Command" is pressed again (app.py:671) and handles it on every rerun, so any later click re-applies its action. `AssistantFacts.RerunAddsTwice` shows an ADD_TASK reply adding a second copy with the next id.
- The `try/except` around directive execution is left out: every model function is total.
- Calendar.ParseIsoFields: accepts only the zero-padded `YYYY-MM-DD` form with ASCII digits, while `strptime` also accepts one-digit and space-padded months and days ("2024-01- 5") and non-ASCII decimal digits; the shape check `re.match(r'\d{4}-\d{2}-\d{2}')` at app.py:612 likewise accepts non-ASCII digits. Dates are `Calendar.Valid`, years 1 to 9999.
- DueDates.ResolveDuePhrase, DueDates.ResolveVoiceDue, DueDates.BrainDumpDue, Store.TaskStore.MoveToTomorrow, Nudges.NudgesFor, Nudges.DisplayNudges: day arithmetic is unbounded. Python raises `OverflowError` when `today + timedelta` passes 9999-12-31 (test_app.py:42-44, 62; app.py:25, 45, 168, 609, 793-811), and these members return a result instead. In `display_nudges` that happens when today is 9999-12-31 and some pending task is due on another day (app.py:25). It also happens when today is on or after 9999-12-29 and some "company" task is due on or after today (app.py:45). There the page fails, while the model returns a nudge list.
- Text.Lower: folds ASCII letters only, while Python's `lower()` folds all of Unicode.
- Text.SplitLines: breaks at '\n' only, while Python's `splitlines()` also breaks at '\r' and other separators.
- Ids are not unique (`len(tasks) + 1` after a delete), and the model makes no uniqueness claim. `TaskFacts.IdReuseAfterDelete` exhibits a collision.
- Edits and deletes take the task's position in the store (or its id, for delete). The dictionary the button closes over is that element, so this is the same task.
- Store.TaskStore.Delete: deletes by id, like the source. Deleting removes every task that shares the id.
- The unimplemented "Edit" button (app.py:193-194), commented-out code and the dependency-nudge placeholder are left out.
