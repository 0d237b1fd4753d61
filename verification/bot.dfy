/** The bot's command handlers (bot/handlers.py) and the routing of one
    incoming update: commands are matched first (their router is included
    before the dialogs' router), everything else goes to the running
    dialog. Also the translation of the dialogs' store calls into API
    client requests. */
module Bot {
  import opened Wrappers
  import opened Text
  import opened DateTimes
  import opened Wizard
  import ApiClient

  datatype Command = Start | Help | Tasks | AddTask

  /** The sender of an update: Telegram id and (possibly empty) username. */
  datatype TelegramUser = TelegramUser(id: int, username: Option<string>)

  datatype Update = Cmd(command: Command) | Message(input: Input)

  /** `user.username or f"user_{telegram_id}"`. */
  function RegistrationName(u: TelegramUser): (name: string)
    ensures u.username.Some? && u.username.value != "" ==> name == u.username.value
    ensures u.username.None? || u.username.value == "" ==> name == "user_" + IntToString(u.id)
  {
    if u.username.Some? && u.username.value != "" then u.username.value else "user_" + IntToString(u.id)
  }

  /** Users without a username still register under distinct names. */
  lemma FallbackNamesDistinct(u: TelegramUser, v: TelegramUser)
    requires u.username.None? || u.username.value == ""
    requires v.username.None? || v.username.value == ""
    requires RegistrationName(u) == RegistrationName(v)
    ensures u.id == v.id
  {
    PrefixedIntInjective("user_", u.id, v.id);
  }

  /** `cmd_start`, `cmd_help`, `cmd_tasks` and `cmd_add`. Starting a dialog
      uses the reset-stack mode: whatever ran before is discarded and the
      new dialog begins with empty scratch data. */
  function OnCommand(c: Conversation, u: TelegramUser, cmd: Command, present: bool): Step {
    match cmd
    case Start => Step(c, Some(Register(u.id, RegistrationName(u))), [if present then Welcome else RegistrationFailed])
    case Help => Step(c, None, [HelpText])
    case Tasks => Step(Active(View(List), EmptyScratch), None, [])
    case AddTask => Step(Active(Add(Title), EmptyScratch), None, [])
  }

  /** One update from user `u`, given how the store call it makes, if
      any, ended. */
  function Dispatch(c: Conversation, u: TelegramUser, up: Update, a: Answer): Step {
    match up
    case Cmd(cmd) => Settle(c, OnCommand(c, u, cmd, a == Returned(true)), a)
    case Message(input) => HandleAnswer(c, u.id, input, a)
  }

  /** The answer a handler sees for a request that either completed with an
      outcome or raised out of the API client (`None`). */
  function AnswerOf(e: Option<ApiClient.Outcome>): (a: Answer)
    ensures a.Raised? <==> e.None?
    ensures e.Some? ==> a.present == ApiClient.Present(e.value)
  {
    if e.Some? then Returned(ApiClient.Present(e.value)) else Raised
  }

  /** `/start` registers the sender. When the client returns, exactly one
      message is sent: the welcome when registration returned a result, an
      error otherwise; when the call raises, nothing is sent. The
      conversation is left as it was. */
  lemma StartRegisters(c: Conversation, u: TelegramUser, a: Answer)
    ensures var r := Dispatch(c, u, Cmd(Start), a);
      && r.conv == c
      && r.call == Some(Register(u.id, RegistrationName(u)))
      && (a.Returned? ==>
            && |r.notices| == 1
            && (r.notices[0] == Welcome <==> a.present)
            && (r.notices[0] == RegistrationFailed <==> !a.present))
      && (a.Raised? ==> r.notices == [])
  {
  }

  /** `/tasks` and `/add` restart from any conversation: the list, or the
      title step, with no scratch data left over. */
  lemma CommandsResetStack(c: Conversation, u: TelegramUser, a: Answer)
    ensures Dispatch(c, u, Cmd(Tasks), a).conv == Active(View(List), Scratch(None, None, None, None))
    ensures Dispatch(c, u, Cmd(AddTask), a).conv == Active(Add(Title), Scratch(None, None, None, None))
    ensures Dispatch(c, u, Cmd(Tasks), a).call.None?
    ensures Dispatch(c, u, Cmd(AddTask), a).call.None?
  {
  }

  /** The conversation after a run of updates, each with its store answer. */
  function Run(c: Conversation, u: TelegramUser, ups: seq<Update>, answers: seq<Answer>): Conversation
    requires |ups| == |answers|
    decreases |ups|
  {
    if |ups| == 0 then c
    else Run(Dispatch(c, u, ups[0], answers[0]).conv, u, ups[1..], answers[1..])
  }

  /** Every conversation reachable from no dialog holds the scratch keys
      `Inv` describes. */
  lemma {:induction false} RunPreservesInv(c: Conversation, u: TelegramUser, ups: seq<Update>, answers: seq<Answer>)
    requires |ups| == |answers|
    requires Inv(c)
    ensures Inv(Run(c, u, ups, answers))
    decreases |ups|
  {
    if |ups| > 0 {
      var next := Dispatch(c, u, ups[0], answers[0]).conv;
      if ups[0].Message? {
        HandlePreservesInv(c, u.id, ups[0].input, answers[0] == Returned(true));
      }
      RunPreservesInv(next, u, ups[1..], answers[1..]);
    }
  }

  /** The API request for a dialog's store call. A missing task id renders
      as Python's "None". */
  function ToRequest(call: StoreCall): ApiClient.Call {
    match call
    case UpdateStatus(id, status) => ApiClient.UpdateTaskStatusCall(id.GetOr("None"), status)
    case CreateTask(tg, title, description, due) =>
      ApiClient.CreateTaskCall(tg, title, description, if due.Some? then Some(IsoFormat(due.value)) else None, None)
    case Register(tg, name) => ApiClient.RegisterUserCall(tg, name)
  }

  /** Completing the selected task PATCHes that task's own endpoint, and no
      other task's, with the body `{"status": "completed"}`. */
  lemma CompleteRequestsPatch(sc: Scratch, userId: int, a: Answer, id: string)
    requires sc.selectedTaskId == Some(id)
    ensures var step := HandleAnswer(Active(View(Detail), sc), userId, Click(Complete), a);
      && step.call.Some?
      && ToRequest(step.call.value).verb == ApiClient.Patch
      && ToRequest(step.call.value).endpoint == ApiClient.TaskEndpoint(id)
      && ToRequest(step.call.value).data == Some(map["status" := ApiClient.JStr("completed")])
      && forall other :: ToRequest(step.call.value).endpoint == ApiClient.TaskEndpoint(other) ==> other == id
  {
    CompleteStep(sc, userId, a);
    forall other | ApiClient.TaskEndpoint(id) == ApiClient.TaskEndpoint(other)
      ensures other == id
    {
      ApiClient.TaskEndpointInjective(id, other);
    }
  }

  /** The create request carries a due date exactly when one was staged, in
      ISO form, and never category ids. */
  lemma CreateRequestDueDate(tg: int, title: string, description: string, due: Option<Moment>)
    ensures var p := ToRequest(CreateTask(tg, title, description, due)).data.value;
      && ("due_date" in p <==> due.Some?)
      && (due.Some? ==> p["due_date"] == ApiClient.JStr(IsoFormat(due.value)))
      && "category_ids" !in p
  {
  }

  /** The scenario "add, title `Buy milk`, skip, skip, confirm": the backend
      is asked to create a task with that title, an empty description and
      no due date; the dialog ends whatever result comes back, and stays
      at the confirmation when the call raises. */
  lemma BuyMilkScenario(c: Conversation, u: TelegramUser, a: Answer)
    ensures
      var s1 := Dispatch(c, u, Cmd(AddTask), a).conv;
      var s2 := Dispatch(s1, u, Message(Text("Buy milk")), a).conv;
      var s3 := Dispatch(s2, u, Message(Click(SkipDescription)), a).conv;
      var s4 := Dispatch(s3, u, Message(Click(SkipDueDate)), a).conv;
      var r := Dispatch(s4, u, Message(Click(ConfirmCreate)), a);
      && s4 == Active(Add(Confirm), Scratch(Some("Buy milk"), Some(""), Some(None), None))
      && (a.Returned? ==> r.conv == Idle)
      && (a.Raised? ==> r.conv == s4 && r.notices == [])
      && r.call == Some(CreateTask(u.id, "Buy milk", "", None))
      && ToRequest(r.call.value).data.value.Keys == {"telegram_id", "title", "description"}
  {
  }
}
