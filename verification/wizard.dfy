/** The two dialogs of the bot (bot/states.py, bot/dialogs.py): the task
    list/detail viewer and the four-step add-task wizard, as one
    conversation record per user and a transition function over it.
    Each store call the bot makes while handling an event is returned as
    a `StoreCall`; how that call ended (a truthy result, none, or an
    exception the API client lets through) is an `Answer`. */
module Wizard {
  import opened Wrappers
  import opened Text
  import opened DateTimes

  /** `TaskSG`: the viewer's states. */
  datatype TaskSG = List | Detail

  /** `AddTaskSG`: the wizard's states. */
  datatype AddTaskSG = Title | Description | DueDate | Confirm

  datatype DialogState = View(view: TaskSG) | Add(add: AddTaskSG)

  /** The states of each group in declaration order, which is also the
      order of the dialog's windows. */
  const TaskSGStates: seq<DialogState> := [View(List), View(Detail)]
  const AddTaskSGStates: seq<DialogState> := [Add(Title), Add(Description), Add(DueDate), Add(Confirm)]

  /** The name aiogram gives a state: `<group>:<attribute>`. */
  function StateName(s: DialogState): string {
    match s
    case View(List) => "TaskSG:list"
    case View(Detail) => "TaskSG:detail"
    case Add(Title) => "AddTaskSG:title"
    case Add(Description) => "AddTaskSG:description"
    case Add(DueDate) => "AddTaskSG:due_date"
    case Add(Confirm) => "AddTaskSG:confirm"
  }

  /** The viewer has exactly the states `list` and `detail`, the wizard
      exactly `title`, `description`, `due_date` and `confirm`. */
  lemma GroupsAreExhaustive(s: DialogState)
    ensures s.View? <==> s in TaskSGStates
    ensures s.Add? <==> s in AddTaskSGStates
    ensures |TaskSGStates| == 2 && |AddTaskSGStates| == 4
  {
    match s
    case View(List) => assert s == TaskSGStates[0];
    case View(Detail) => assert s == TaskSGStates[1];
    case Add(Title) => assert s == AddTaskSGStates[0];
    case Add(Description) => assert s == AddTaskSGStates[1];
    case Add(DueDate) => assert s == AddTaskSGStates[2];
    case Add(Confirm) => assert s == AddTaskSGStates[3];
  }

  /** All six states carry pairwise distinct names. */
  lemma StateNamesDistinct(a: DialogState, b: DialogState)
    requires a != b
    ensures StateName(a) != StateName(b)
  {
  }

  /** The per-user `dialog_data`: one optional entry per key the handlers
      write. `dueDate` distinguishes an absent key (`None`) from a key
      holding Python `None` (`Some(None)`). */
  datatype Scratch = Scratch(
    title: Option<string>,
    description: Option<string>,
    dueDate: Option<Option<Moment>>,
    selectedTaskId: Option<string>)

  const EmptyScratch := Scratch(None, None, None, None)

  /** `dialog_data.get("due_date")`. */
  function StagedDue(sc: Scratch): Option<Moment> {
    match sc.dueDate
    case Some(d) => d
    case None => None
  }

  /** No dialog running, or one running in `state` with its scratch data. */
  datatype Conversation = Idle | Active(state: DialogState, scratch: Scratch)

  datatype Button =
    | SelectTask(itemId: string)
    | Refresh
    | Complete
    | Back
    | Cancel
    | SkipDescription
    | SkipDueDate
    | ConfirmCreate

  /** A non-command message (its text) or a click on one of the window's buttons. */
  datatype Input = Text(text: string) | Click(button: Button)

  /** The buttons each window shows. */
  predicate Offers(s: DialogState, b: Button) {
    match s
    case View(List) => b.SelectTask? || b == Refresh || b == Cancel
    case View(Detail) => b == Complete || b == Back
    case Add(Title) => b == Cancel
    case Add(Description) => b == SkipDescription || b == Cancel
    case Add(DueDate) => b == SkipDueDate || b == Back || b == Cancel
    case Add(Confirm) => b == ConfirmCreate || b == Back || b == Cancel
  }

  /** The state before `s` in its group, where a `Back` button leads. */
  function Previous(s: DialogState): Option<DialogState> {
    match s
    case View(List) => None
    case View(Detail) => Some(View(List))
    case Add(Title) => None
    case Add(Description) => Some(Add(Title))
    case Add(DueDate) => Some(Add(Description))
    case Add(Confirm) => Some(Add(DueDate))
  }

  /** Replies shown to the user (their wording is not modelled). */
  datatype Notice =
    | ListRefreshed
    | TaskCompleted
    | CompleteFailed
    | TaskCreated
    | CreateFailed
    | BadDateFormat
    | Welcome
    | RegistrationFailed
    | HelpText

  /** The backend calls the bot makes through its API client. */
  datatype StoreCall =
    | UpdateStatus(taskId: Option<string>, status: string)
    | CreateTask(telegramId: int, title: string, description: string, dueDate: Option<Moment>)
    | Register(telegramId: int, username: string)

  datatype Step = Step(conv: Conversation, call: Option<StoreCall>, notices: seq<Notice>)

  /** Nothing happens. */
  function Ignore(c: Conversation): Step {
    Step(c, None, [])
  }

  /** The text-input handlers `on_title_entered`, `on_description_entered`
      and `on_due_date_entered`. */
  function OnText(s: DialogState, sc: Scratch, text: string): Step {
    match s
    case Add(Title) => Step(Active(Add(Description), sc.(title := Some(text))), None, [])
    case Add(Description) => Step(Active(Add(DueDate), sc.(description := Some(text))), None, [])
    case Add(DueDate) =>
      (match ParseDueDate(text)
       case Some(dt) => Step(Active(Add(Confirm), sc.(dueDate := Some(Some(dt)))), None, [])
       case None => Step(Active(s, sc), None, [BadDateFormat]))
    case _ => Ignore(Active(s, sc))
  }

  /** The button handlers `on_task_selected`, `on_refresh_tasks`,
      `on_complete_task`, `on_skip_description`, `on_skip_due_date`,
      `on_confirm_task`, and the `Back` and `Cancel` widgets. */
  function OnClick(s: DialogState, sc: Scratch, b: Button, userId: int, present: bool): Step
    requires Offers(s, b)
  {
    match b
    case SelectTask(id) => Step(Active(View(Detail), sc.(selectedTaskId := Some(id))), None, [])
    case Refresh => Step(Active(s, sc), None, [ListRefreshed])
    case Complete =>
      Step(Active(View(List), sc), Some(UpdateStatus(sc.selectedTaskId, "completed")),
           [if present then TaskCompleted else CompleteFailed])
    case Back => Step(Active(Previous(s).GetOr(s), sc), None, [])
    case Cancel => Step(Idle, None, [])
    case SkipDescription => Step(Active(Add(DueDate), sc.(description := Some(""))), None, [])
    case SkipDueDate => Step(Active(Add(Confirm), sc.(dueDate := Some(None))), None, [])
    case ConfirmCreate =>
      Step(Idle, Some(CreateTask(userId, sc.title.GetOr(""), sc.description.GetOr(""), StagedDue(sc))),
           [if present then TaskCreated else CreateFailed])
  }

  /** One non-command event from user `userId`. Input no window handles
      (text where there is no text input, a button the window does not
      show, anything while no dialog runs) is dropped. */
  function Handle(c: Conversation, userId: int, input: Input, present: bool): Step {
    match c
    case Idle => Ignore(c)
    case Active(s, sc) =>
      match input
      case Text(t) => OnText(s, sc, t)
      case Click(b) => if Offers(s, b) then OnClick(s, sc, b, userId, present) else Ignore(c)
  }

  /** How the store call a handler makes ended: the API client returned,
      with a truthy result or without one, or it raised an exception it
      does not catch (a timeout, a JSON body that does not decode). */
  datatype Answer = Returned(present: bool) | Raised

  /** The step once the store call's answer is known. A handler whose call
      raised stops at the call: the request has gone out, but the
      transition and the notice after it never happen. A step without a
      store call does not depend on the answer. */
  function Settle(c: Conversation, step: Step, a: Answer): (r: Step)
    ensures r.call == step.call
    ensures a.Returned? || step.call.None? ==> r == step
    ensures a.Raised? && step.call.Some? ==> r.conv == c && r.notices == []
  {
    if a.Raised? && step.call.Some? then Step(c, step.call, []) else step
  }

  /** One non-command event, given how its store call ended. */
  function HandleAnswer(c: Conversation, userId: int, input: Input, a: Answer): Step {
    Settle(c, Handle(c, userId, input, a == Returned(true)), a)
  }

  // ---------------------------------------------------------------------
  // Properties of the transition function

  /** Selecting a task records its id and opens the detail window; nothing
      else in the scratch data changes. */
  lemma SelectTaskStep(sc: Scratch, id: string, userId: int, present: bool)
    ensures Handle(Active(View(List), sc), userId, Click(SelectTask(id)), present)
         == Step(Active(View(Detail), Scratch(sc.title, sc.description, sc.dueDate, Some(id))), None, [])
  {
  }

  /** Title and description text is stored verbatim and the wizard moves on;
      skipping the description stores "". */
  lemma TextInputSteps(sc: Scratch, text: string, userId: int, present: bool)
    ensures Handle(Active(Add(Title), sc), userId, Text(text), present).conv
         == Active(Add(Description), Scratch(Some(text), sc.description, sc.dueDate, sc.selectedTaskId))
    ensures Handle(Active(Add(Description), sc), userId, Text(text), present).conv
         == Active(Add(DueDate), Scratch(sc.title, Some(text), sc.dueDate, sc.selectedTaskId))
    ensures Handle(Active(Add(Description), sc), userId, Click(SkipDescription), present).conv
         == Active(Add(DueDate), Scratch(sc.title, Some(""), sc.dueDate, sc.selectedTaskId))
  {
  }

  /** Due-date text: a parse stores the datetime and moves to `confirm`; a
      failure leaves state and scratch as they were and sends exactly one
      error notice. Skipping stores a null due date. */
  lemma DueDateSteps(sc: Scratch, text: string, userId: int, present: bool)
    ensures var r := Handle(Active(Add(DueDate), sc), userId, Text(text), present);
      match ParseDueDate(text)
      case Some(dt) =>
        r == Step(Active(Add(Confirm), Scratch(sc.title, sc.description, Some(Some(dt)), sc.selectedTaskId)), None, [])
      case None =>
        r == Step(Active(Add(DueDate), sc), None, [BadDateFormat])
    ensures Handle(Active(Add(DueDate), sc), userId, Click(SkipDueDate), present)
         == Step(Active(Add(Confirm), Scratch(sc.title, sc.description, Some(None), sc.selectedTaskId)), None, [])
  {
    var parsed := ParseDueDate(text);
    assert Handle(Active(Add(DueDate), sc), userId, Text(text), present) == OnText(Add(DueDate), sc, text);
    if parsed.Some? {
      assert OnText(Add(DueDate), sc, text) == Step(Active(Add(Confirm), sc.(dueDate := Some(Some(parsed.value)))), None, []);
    } else {
      assert OnText(Add(DueDate), sc, text) == Step(Active(Add(DueDate), sc), None, [BadDateFormat]);
    }
  }

  /** `Back` moves only from `detail`, `due_date` and `confirm`, to the
      preceding state, and keeps the scratch data. */
  lemma BackEdges(s: DialogState, sc: Scratch, userId: int, present: bool)
    ensures var r := Handle(Active(s, sc), userId, Click(Back), present);
      && r.call.None? && r.notices == []
      && (s in {View(Detail), Add(DueDate), Add(Confirm)} <==> r.conv != Active(s, sc))
      && (s == View(Detail) ==> r.conv == Active(View(List), sc))
      && (s == Add(DueDate) ==> r.conv == Active(Add(Description), sc))
      && (s == Add(Confirm) ==> r.conv == Active(Add(DueDate), sc))
  {
  }

  /** `Cancel` ends the dialog from the list and from every wizard window;
      the detail window has no such button. */
  lemma CancelEdges(s: DialogState, sc: Scratch, userId: int, present: bool)
    ensures var r := Handle(Active(s, sc), userId, Click(Cancel), present);
      && r.call.None? && r.notices == []
      && (s != View(Detail) <==> r.conv == Idle)
  {
  }

  /** Fire and forget: the call a handler makes does not depend on how it
      ends; when the client returns, whether a result came back changes
      only the notice, never the next conversation; when it raises, the
      conversation stays where it was and nothing is sent. */
  lemma {:induction false} OutcomeOnlyChangesNotice(c: Conversation, userId: int, input: Input, a1: Answer, a2: Answer)
    ensures HandleAnswer(c, userId, input, a1).call == HandleAnswer(c, userId, input, a2).call
    ensures a1.Returned? && a2.Returned? ==>
      && HandleAnswer(c, userId, input, a1).conv == HandleAnswer(c, userId, input, a2).conv
      && |HandleAnswer(c, userId, input, a1).notices| == |HandleAnswer(c, userId, input, a2).notices|
    ensures a1.Raised? && HandleAnswer(c, userId, input, a1).call.Some? ==>
      HandleAnswer(c, userId, input, a1).conv == c && HandleAnswer(c, userId, input, a1).notices == []
  {
    assert Handle(c, userId, input, true).call == Handle(c, userId, input, false).call;
    assert Handle(c, userId, input, true).conv == Handle(c, userId, input, false).conv;
    assert |Handle(c, userId, input, true).notices| == |Handle(c, userId, input, false).notices|;
  }

  /** Completing a task asks the store to mark the selected task completed.
      When the client returns, the dialog goes back to the list whatever
      the result and only the notice follows it; when the call raises, the
      detail window stays and nothing is sent. */
  lemma CompleteStep(sc: Scratch, userId: int, a: Answer)
    ensures var r := HandleAnswer(Active(View(Detail), sc), userId, Click(Complete), a);
      && r.call == Some(UpdateStatus(sc.selectedTaskId, "completed"))
      && (a.Returned? ==> r.conv == Active(View(List), sc)
                          && r.notices == [if a.present then TaskCompleted else CompleteFailed])
      && (a.Raised? ==> r.conv == Active(View(Detail), sc) && r.notices == [])
  {
  }

  /** Confirming submits the staged title, description and due date, with
      "", "" and no date for keys never written. When the client returns,
      the dialog ends whatever the result and only the notice follows it;
      when the call raises, the confirmation window stays and nothing is
      sent. */
  lemma ConfirmStep(sc: Scratch, userId: int, a: Answer)
    ensures var r := HandleAnswer(Active(Add(Confirm), sc), userId, Click(ConfirmCreate), a);
      && r.call == Some(CreateTask(userId,
                                   if sc.title.Some? then sc.title.value else "",
                                   if sc.description.Some? then sc.description.value else "",
                                   if sc.dueDate.Some? then sc.dueDate.value else None))
      && (a.Returned? ==> r.conv == Idle && r.notices == [if a.present then TaskCreated else CreateFailed])
      && (a.Raised? ==> r.conv == Active(Add(Confirm), sc) && r.notices == [])
  {
  }

  // ---------------------------------------------------------------------
  // Which scratch keys each reachable state holds

  /** The scratch keys present in each state of a conversation that began
      with an empty scratch: the viewer never holds wizard keys, the wizard
      never holds a selection, and each wizard step holds the keys its
      predecessors wrote. */
  predicate Inv(c: Conversation) {
    match c
    case Idle => true
    case Active(View(v), sc) =>
      && sc.title.None? && sc.description.None? && sc.dueDate.None?
      && (v == Detail ==> sc.selectedTaskId.Some?)
    case Active(Add(a), sc) =>
      && sc.selectedTaskId.None?
      && (a != Title ==> sc.title.Some?)
      && (a == DueDate || a == Confirm ==> sc.description.Some?)
      && (a == Confirm ==> sc.dueDate.Some?)
  }

  lemma {:induction false} HandlePreservesInv(c: Conversation, userId: int, input: Input, present: bool)
    requires Inv(c)
    ensures Inv(Handle(c, userId, input, present).conv)
  {
    match c
    case Idle =>
    case Active(s, sc) =>
      match input
      case Click(b) =>
      case Text(t) =>
        if s == Add(DueDate) {
          DueDateSteps(sc, t, userId, present);
          var parsed := ParseDueDate(t);
          if parsed.Some? {
            assert Handle(c, userId, input, present).conv.scratch.dueDate == Some(Some(parsed.value));
          }
        } else {
          assert Handle(c, userId, input, present) == OnText(s, sc, t);
        }
  }

  /** In a reachable conversation the defaults of `on_confirm_task` and the
      missing selection of `on_complete_task` never occur: confirm submits
      exactly the staged values and complete names a task. */
  lemma ReachableCallsUseStagedValues(c: Conversation, userId: int, input: Input, present: bool)
    requires Inv(c)
    ensures var r := Handle(c, userId, input, present);
      match r.call
      case Some(CreateTask(_, t, d, due)) =>
        c.Active? && Some(t) == c.scratch.title && Some(d) == c.scratch.description
        && Some(due) == c.scratch.dueDate
      case Some(UpdateStatus(id, _)) => id.Some?
      case _ => true
  {
  }

  // ---------------------------------------------------------------------
  // The windows' getters

  /** A task as listed by the backend. A datetime field is either absent
      or null, text `fromisoformat` rejects, or a datetime. */
  datatype Stamp = Missing | Garbled | Iso(at: Moment)

  datatype TaskItem = TaskItem(
    id: string,
    title: Option<string>,
    description: Option<string>,
    status: Option<string>,
    categoryNames: seq<string>,
    createdAt: Stamp,
    dueDate: Stamp)

  /** The placeholder for an empty or absent field. */
  const Placeholder: string := "\U{2014}"

  /** `format_task_date`. */
  function FormatTaskDate(s: Stamp): (r: string)
    ensures r == Placeholder <==> !s.Iso?
    ensures s.Iso? ==> r == FormatDisplay(s.at)
  {
    match s
    case Iso(dt) =>
      var r := FormatDisplay(dt);
      assert r[0] != Placeholder[0] by { assert IsDigit(r[0]); }
      r
    case _ => Placeholder
  }

  /** `x or '—'` for an optional text. */
  function OrPlaceholder(x: Option<string>): (r: string)
    ensures x.Some? && x.value != "" ==> r == x.value
    ensures x.None? || x.value == "" ==> r == Placeholder
  {
    if x.Some? && x.value != "" then x.value else Placeholder
  }

  /** The shown text is never empty, it is the placeholder exactly when the
      text is absent, empty or the placeholder itself, and any other shown
      text tells which text was there. */
  lemma OrPlaceholderShowsText(x: Option<string>, y: Option<string>)
    ensures OrPlaceholder(x) != ""
    ensures OrPlaceholder(x) == Placeholder <==> x.None? || x.value == "" || x.value == Placeholder
    ensures OrPlaceholder(x) == OrPlaceholder(y) && OrPlaceholder(x) != Placeholder ==> x == y
  {
  }

  datatype TasksData = TasksData(tasks: seq<TaskItem>, tasksCount: nat, hasTasks: bool)

  /** `get_tasks_data`. */
  function GetTasksData(tasks: seq<TaskItem>): (r: TasksData)
    ensures r.tasks == tasks && r.tasksCount == |tasks|
    ensures r.hasTasks <==> r.tasksCount > 0
  {
    TasksData(tasks, |tasks|, |tasks| > 0)
  }

  /** The status as shown: a known status by its label, anything else raw. */
  datatype ShownStatus = Labelled(status: string) | Raw(raw: Option<string>)

  function ShowStatus(s: Option<string>): (r: ShownStatus)
    ensures r.Labelled? <==> s in {Some("pending"), Some("in_progress"), Some("completed")}
    ensures r.Labelled? ==> Some(r.status) == s
    ensures r.Raw? ==> r.raw == s
  {
    if s == Some("pending") || s == Some("in_progress") || s == Some("completed") then Labelled(s.value)
    else Raw(s)
  }

  datatype TaskDetail = TaskDetail(
    task: TaskItem,
    title: string,
    description: string,
    status: ShownStatus,
    categories: string,
    createdAt: string,
    dueDate: string)

  /** The position of the first task with id `id`. */
  function FirstWithId(tasks: seq<TaskItem>, id: string): (r: Option<nat>)
    ensures r.None? <==> forall i :: 0 <= i < |tasks| ==> tasks[i].id != id
    ensures r.Some? ==> r.value < |tasks| && tasks[r.value].id == id
    ensures r.Some? ==> forall i :: 0 <= i < r.value ==> tasks[i].id != id
  {
    if |tasks| == 0 then None
    else if tasks[0].id == id then Some(0)
    else match FirstWithId(tasks[1..], id)
      case None => None
      case Some(k) => Some(k + 1)
  }

  /** The fields of the detail window for one task. */
  function ShowTask(t: TaskItem): (d: TaskDetail)
    ensures d.task == t
    ensures d.title == t.title.GetOr("")
    ensures d.status == ShowStatus(t.status)
    ensures d.description == OrPlaceholder(t.description)
    ensures d.categories == Placeholder <==> |t.categoryNames| == 0 || Join(t.categoryNames, ", ") == Placeholder
    ensures |t.categoryNames| > 0 ==> d.categories == Join(t.categoryNames, ", ")
    ensures d.dueDate == Placeholder <==> !t.dueDate.Iso?
    ensures t.dueDate.Iso? ==> d.dueDate == FormatDisplay(t.dueDate.at)
    ensures d.createdAt == Placeholder <==> !t.createdAt.Iso?
    ensures t.createdAt.Iso? ==> d.createdAt == FormatDisplay(t.createdAt.at)
  {
    TaskDetail(
      t,
      t.title.GetOr(""),
      OrPlaceholder(t.description),
      ShowStatus(t.status),
      if |t.categoryNames| > 0 then Join(t.categoryNames, ", ") else Placeholder,
      FormatTaskDate(t.createdAt),
      if t.dueDate.Missing? then Placeholder else FormatTaskDate(t.dueDate))
  }

  /** `get_task_detail_data`: the first fetched task whose id is the
      selected one, or nothing (the window then shows no task). */
  function GetTaskDetailData(selected: Option<string>, tasks: seq<TaskItem>): (r: Option<TaskDetail>)
    ensures r.None? <==> selected.None? || forall i :: 0 <= i < |tasks| ==> tasks[i].id != selected.value
    ensures r.Some? ==> exists i :: 0 <= i < |tasks| && tasks[i].id == selected.value
                                    && r.value == ShowTask(tasks[i])
                                    && forall j :: 0 <= j < i ==> tasks[j].id != selected.value
  {
    if selected.None? then None
    else match FirstWithId(tasks, selected.value)
      case None => None
      case Some(i) => Some(ShowTask(tasks[i]))
  }

  /** The list window and the detail window agree: an id opens a detail
      exactly when the list shows a task with that id, and it opens the first
      such task; an empty list opens nothing. */
  lemma ListedTasksOpen(tasks: seq<TaskItem>, id: string)
    ensures var listed := GetTasksData(tasks);
      && (GetTaskDetailData(Some(id), tasks).Some? <==>
            exists i :: 0 <= i < listed.tasksCount && listed.tasks[i].id == id)
      && (!listed.hasTasks ==> GetTaskDetailData(Some(id), tasks).None?)
      && (GetTaskDetailData(Some(id), tasks).Some? ==>
            GetTaskDetailData(Some(id), tasks).value.task == listed.tasks[FirstWithId(tasks, id).value])
  {
    var listed := GetTasksData(tasks);
    if GetTaskDetailData(Some(id), tasks).Some? {
      var k := FirstWithId(tasks, id).value;
      assert listed.tasks[k].id == id;
    }
  }

  datatype ConfirmData = ConfirmData(title: string, description: string, dueDate: string)

  /** `get_confirm_data`: the staged values, with the placeholder for an
      empty description and an absent due date. */
  function GetConfirmData(sc: Scratch): (r: ConfirmData)
    ensures r.title == sc.title.GetOr("")
    ensures r.description == OrPlaceholder(sc.description)
    ensures StagedDue(sc).None? <==> r.dueDate == Placeholder
    ensures StagedDue(sc).Some? ==> r.dueDate == FormatDisplay(StagedDue(sc).value)
  {
    var due := StagedDue(sc);
    ConfirmData(sc.title.GetOr(""), OrPlaceholder(sc.description),
                if due.Some? then FormatTaskDate(Iso(due.value)) else Placeholder)
  }

  /** A staged due date is what the confirmation window shows. */
  lemma ConfirmShowsStagedDue(sc: Scratch, dt: Moment)
    requires sc.dueDate == Some(Some(dt))
    ensures GetConfirmData(sc).dueDate == FormatDisplay(dt)
  {
    assert StagedDue(sc) == Some(dt);
  }

  /** Whatever text parses to `dt` moves the wizard to `confirm`, where the
      due date is shown in the display format. */
  lemma ParsedDueDateShown(sc: Scratch, text: string, dt: Moment, userId: int, present: bool)
    requires ParseDueDate(text) == Some(dt)
    ensures var r := Handle(Active(Add(DueDate), sc), userId, Text(text), present);
      && r.conv.Active? && r.conv.state == Add(Confirm)
      && GetConfirmData(r.conv.scratch).dueDate == FormatDisplay(dt)
  {
    DueDateSteps(sc, text, userId, present);
    var sc' := Scratch(sc.title, sc.description, Some(Some(dt)), sc.selectedTaskId);
    ConfirmShowsStagedDue(sc', dt);
  }

  /** A due date typed in the display format is shown back unchanged on the
      confirmation window. */
  lemma TypedDueDateShownBack(sc: Scratch, dt: Moment, userId: int, present: bool)
    requires dt.year >= 1000
    ensures var r := Handle(Active(Add(DueDate), sc), userId, Text(FormatDisplay(dt)), present);
      && r.conv.Active? && r.conv.state == Add(Confirm)
      && GetConfirmData(r.conv.scratch).dueDate == FormatDisplay(dt)
  {
    ParseFormatDisplay(dt);
    ParsedDueDateShown(sc, FormatDisplay(dt), dt, userId, present);
  }
}
