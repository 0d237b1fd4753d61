/** The periodic due-task sweep and the per-task notification sender
    (backend/tasks/tasks.py). The Telegram Bot API call is a parameter: the
    sender is given the outcome the HTTP request would have had. */
module Notifications {
  import opened Wrappers
  import opened Text
  import opened Seqs
  import opened Models
  import Serializers

  /** The sweep's query: a due date that has passed, no notification sent
      yet, and a status that is still open. */
  predicate Eligible(t: Task, now: int) {
    && t.dueDate.Some? && t.dueDate.value <= now
    && !t.notificationSent
    && (t.status == Pending || t.status == InProgress)
  }

  function DueAt(now: int): Task -> bool {
    (t: Task) => Eligible(t, now)
  }

  predicate Distinct(ids: seq<Id>) {
    forall i, j :: 0 <= i < |ids| && 0 <= j < |ids| && ids[i] == ids[j] ==> i == j
  }

  /** One sweep at time `now`: queue a notification for every eligible task
      whose owner has a telegram id, and count them. Each queued task id is
      returned in `jobs`, in the order the sweep visits them. */
  method CheckDueTasks(st: Store, now: int) returns (jobs: seq<Id>, count: nat)
    ensures count == |jobs|
    ensures forall id :: id in jobs <==> exists t :: t in st.tasks && t.id == id && Eligible(t, now) && OwnerHasTelegram(st, t)
    ensures UniqueTaskIds(st.tasks) ==> Distinct(jobs)
  {
    var due := Filter(st.tasks, DueAt(now));
    DueKeepsIdsUnique(st.tasks, now);
    jobs := [];
    count := 0;
    var k := 0;
    while k < |due|
      invariant 0 <= k <= |due|
      invariant count == |jobs|
      invariant forall id :: id in jobs <==> exists i :: 0 <= i < k && due[i].id == id && OwnerHasTelegram(st, due[i])
      invariant UniqueTaskIds(st.tasks) ==> Distinct(jobs)
    {
      var t := due[k];
      if OwnerHasTelegram(st, t) {
        if UniqueTaskIds(st.tasks) {
          forall m | 0 <= m < |jobs|
            ensures jobs[m] != t.id
          {
            assert jobs[m] in jobs;
            var i :| 0 <= i < k && due[i].id == jobs[m];
          }
        }
        jobs := jobs + [t.id];
        count := count + 1;
      }
      k := k + 1;
    }
    DueMembers(st, now, due, jobs);
  }

  lemma DueKeepsIdsUnique(ts: seq<Task>, now: int)
    ensures UniqueTaskIds(ts) ==> UniqueTaskIds(Filter(ts, DueAt(now)))
  {
    if UniqueTaskIds(ts) {
      FilterKeepsTaskIds(ts, DueAt(now));
    }
  }

  lemma DueMembers(st: Store, now: int, due: seq<Task>, jobs: seq<Id>)
    requires due == Filter(st.tasks, DueAt(now))
    requires forall id :: id in jobs <==> exists i :: 0 <= i < |due| && due[i].id == id && OwnerHasTelegram(st, due[i])
    ensures forall id :: id in jobs <==> exists t :: t in st.tasks && t.id == id && Eligible(t, now) && OwnerHasTelegram(st, t)
  {
    forall id
      ensures id in jobs <==> exists t :: t in st.tasks && t.id == id && Eligible(t, now) && OwnerHasTelegram(st, t)
    {
      if id in jobs {
        var i :| 0 <= i < |due| && due[i].id == id && OwnerHasTelegram(st, due[i]);
        assert due[i] in due;
      }
      if exists t :: t in st.tasks && t.id == id && Eligible(t, now) && OwnerHasTelegram(st, t) {
        var t :| t in st.tasks && t.id == id && Eligible(t, now) && OwnerHasTelegram(st, t);
        assert DueAt(now)(t);
        var i :| 0 <= i < |due| && due[i] == t;
      }
    }
  }

  // ---------------------------------------------------------------------
  // Sending one notification

  /** What the HTTP request to the Bot API came back with. */
  datatype SendOutcome = HttpStatus(code: int) | RequestError

  /** The sender's result string, by case. */
  datatype Report = NotFound | NoTelegramId | AlreadySent | NotConfigured | Sent | SendFailed | SendError

  /** The parts of the reminder text: the title always, the description when
      non-empty, the due date when set, and the linked category names joined
      by ", " when there is at least one. */
  datatype Message = Message(title: string, description: Option<string>, dueDate: Option<int>, categories: Option<string>)

  datatype Delivery = Delivery(chatId: int, message: Message)

  /** The store after the attempt, the result, and the message handed to
      the Bot API, if one was. */
  datatype Attempt = Attempt(store: Store, report: Report, delivery: Option<Delivery>)

  function Names(cs: seq<Category>): (r: seq<string>)
    ensures |r| == |cs|
    ensures forall i :: 0 <= i < |cs| ==> r[i] == cs[i].name
  {
    if |cs| == 0 then [] else [cs[0].name] + Names(cs[1..])
  }

  function ComposeMessage(st: Store, t: Task): (m: Message)
    ensures m.title == t.title
    ensures m.description == (if t.description == "" then None else Some(t.description))
    ensures m.dueDate == t.dueDate
    ensures m.categories.Some? <==> exists c :: c in st.categories && c.id in t.categories
    ensures m.categories.Some? ==> m.categories.value == Join(Names(CategoriesOf(st, t)), ", ")
  {
    var cs := CategoriesOf(st, t);
    assert cs != [] <==> exists c :: c in st.categories && c.id in t.categories by {
      if cs != [] { assert cs[0] in cs; }
    }
    Message(
      t.title,
      if t.description == "" then None else Some(t.description),
      t.dueDate,
      if cs == [] then None else Some(Join(Names(cs), ", ")))
  }

  /** The reminder describes a task as the task list the bot fetches shows
      it: the same title, description, due date, and the same categories in
      the same (name) order. */
  lemma MessageAgreesWithListItem(st: Store, t: Task)
    ensures var m, item := ComposeMessage(st, t), Serializers.ListItem(st, t);
      && m.title == item.title
      && m.description == (if item.description == "" then None else Some(item.description))
      && m.dueDate == item.dueDate
      && (m.categories.None? <==> |item.categories| == 0)
      && (m.categories.Some? ==>
            m.categories.value == Join(Project(item.categories, (i: Serializers.CategoryItem) => i.name), ", "))
  {
    var cs := CategoriesOf(st, t);
    var item := Serializers.ListItem(st, t);
    assert item.categories == Serializers.CategoryItems(cs);
    assert Names(cs) == Project(item.categories, (i: Serializers.CategoryItem) => i.name);
    if |cs| > 0 {
      assert cs[0] in cs;
    }
  }

  /** `notification_sent = True`, saving only that column. */
  function MarkSent(st: Store, k: nat): (r: Store)
    requires k < |st.tasks|
    ensures r.users == st.users && r.categories == st.categories && |r.tasks| == |st.tasks|
    ensures r.tasks[k].notificationSent
    ensures r.tasks[k] == st.tasks[k].(notificationSent := r.tasks[k].notificationSent)
    ensures forall i :: 0 <= i < |st.tasks| && i != k ==> r.tasks[i] == st.tasks[i]
  {
    st.(tasks := st.tasks[k := st.tasks[k].(notificationSent := true)])
  }

  /** Send the reminder for task `taskId`: a missing task, an owner with no
      telegram id, an already-sent flag and an empty bot token each stop it,
      in that order; otherwise the message goes out and only an HTTP 200
      marks the task as notified. */
  function SendTaskNotification(st: Store, taskId: Id, token: string, outcome: SendOutcome): (r: Attempt)
    ensures r.report != Sent ==> r.store == st
    ensures r.report == NotFound <==> forall t :: t in st.tasks ==> t.id != taskId
    ensures r.delivery.Some? <==> r.report in {Sent, SendFailed, SendError}
    ensures r.report == Sent ==> outcome == HttpStatus(200) && token != ""
    ensures r.report in {SendFailed, SendError} ==> outcome != HttpStatus(200)
  {
    match FindTask(st.tasks, taskId)
    case None =>
      assert forall t :: t in st.tasks ==> t.id != taskId;
      Attempt(st, NotFound, None)
    case Some(k) =>
      var t := st.tasks[k];
      if !OwnerHasTelegram(st, t) then Attempt(st, NoTelegramId, None)
      else if t.notificationSent then Attempt(st, AlreadySent, None)
      else if token == "" then Attempt(st, NotConfigured, None)
      else
        var d := Some(Delivery(OwnerTelegram(st, t).value, ComposeMessage(st, t)));
        match outcome
        case HttpStatus(code) =>
          if code == 200 then Attempt(MarkSent(st, k), Sent, d)
          else Attempt(st, SendFailed, d)
        case RequestError => Attempt(st, SendError, d)
  }

  /** In a store whose task ids are unique, the sender reaches the network
      exactly for an open reminder (the task exists, its owner has a telegram
      id, it has not been sent, the token is set), addresses it to the
      owner's telegram id, and succeeds exactly when the API answers 200, in
      which case only that task's flag changes and the store stays valid. */
  lemma {:induction false} SendTaskNotificationSpec(st: Store, taskId: Id, token: string, outcome: SendOutcome)
    requires ValidStore(st)
    ensures var r := SendTaskNotification(st, taskId, token, outcome);
      && (r.report == NoTelegramId <==> exists t :: t in st.tasks && t.id == taskId && !OwnerHasTelegram(st, t))
      && (r.report == AlreadySent <==>
            exists t :: t in st.tasks && t.id == taskId && OwnerHasTelegram(st, t) && t.notificationSent)
      && (r.report == NotConfigured <==>
            exists t :: t in st.tasks && t.id == taskId && OwnerHasTelegram(st, t) && !t.notificationSent && token == "")
      && (r.delivery.Some? <==> exists t :: t in st.tasks && t.id == taskId && OwnerHasTelegram(st, t) && !t.notificationSent && token != "")
      && (r.delivery.Some? ==>
            exists t :: t in st.tasks && t.id == taskId && r.delivery.value == Delivery(OwnerTelegram(st, t).value, ComposeMessage(st, t)))
      && (r.report == Sent <==> r.delivery.Some? && outcome == HttpStatus(200))
      && (r.report == SendFailed <==> r.delivery.Some? && outcome.HttpStatus? && outcome.code != 200)
      && (r.report == SendError <==> r.delivery.Some? && outcome == RequestError)
      && ValidStore(r.store)
      && r.store.users == st.users && r.store.categories == st.categories
      && |r.store.tasks| == |st.tasks|
      && (forall i :: 0 <= i < |st.tasks| ==>
            r.store.tasks[i] == st.tasks[i].(notificationSent := r.store.tasks[i].notificationSent)
            && (st.tasks[i].notificationSent ==> r.store.tasks[i].notificationSent)
            && (st.tasks[i].id != taskId ==> r.store.tasks[i] == st.tasks[i]))
  {
    assert TasksValid(st);
    SendReachesNetwork(st, taskId, token, outcome);
    SendChangesOnlyFlag(st, taskId, token, outcome);
    SendKeepsValid(st, taskId, token, outcome);
  }

  /** With unique ids, the task at `k` is the only one carrying its id. */
  lemma OnlyTaskWithId(ts: seq<Task>, k: nat)
    requires UniqueTaskIds(ts) && k < |ts|
    ensures forall t :: t in ts && t.id == ts[k].id ==> t == ts[k]
  {
    forall t | t in ts && t.id == ts[k].id
      ensures t == ts[k]
    {
      var j :| 0 <= j < |ts| && ts[j] == t;
    }
  }

  /** When the sender reaches the network, and to whom. */
  lemma SendReachesNetwork(st: Store, taskId: Id, token: string, outcome: SendOutcome)
    requires UniqueTaskIds(st.tasks)
    ensures var r := SendTaskNotification(st, taskId, token, outcome);
      && (r.report == NoTelegramId <==> exists t :: t in st.tasks && t.id == taskId && !OwnerHasTelegram(st, t))
      && (r.report == AlreadySent <==>
            exists t :: t in st.tasks && t.id == taskId && OwnerHasTelegram(st, t) && t.notificationSent)
      && (r.report == NotConfigured <==>
            exists t :: t in st.tasks && t.id == taskId && OwnerHasTelegram(st, t) && !t.notificationSent && token == "")
      && (r.delivery.Some? <==> exists t :: t in st.tasks && t.id == taskId && OwnerHasTelegram(st, t) && !t.notificationSent && token != "")
      && (r.delivery.Some? ==>
            exists t :: t in st.tasks && t.id == taskId && r.delivery.value == Delivery(OwnerTelegram(st, t).value, ComposeMessage(st, t)))
      && (r.report == Sent <==> r.delivery.Some? && outcome == HttpStatus(200))
      && (r.report == SendFailed <==> r.delivery.Some? && outcome.HttpStatus? && outcome.code != 200)
      && (r.report == SendError <==> r.delivery.Some? && outcome == RequestError)
  {
    match FindTask(st.tasks, taskId)
    case None =>
    case Some(k) =>
      assert st.tasks[k] in st.tasks;
      OnlyTaskWithId(st.tasks, k);
  }

  /** The sender changes at most the flag of the task it was asked for. */
  lemma SendChangesOnlyFlag(st: Store, taskId: Id, token: string, outcome: SendOutcome)
    ensures var r := SendTaskNotification(st, taskId, token, outcome);
      && r.store.users == st.users && r.store.categories == st.categories
      && |r.store.tasks| == |st.tasks|
      && (forall i :: 0 <= i < |st.tasks| ==>
            r.store.tasks[i] == st.tasks[i].(notificationSent := r.store.tasks[i].notificationSent)
            && (st.tasks[i].notificationSent ==> r.store.tasks[i].notificationSent)
            && (st.tasks[i].id != taskId ==> r.store.tasks[i] == st.tasks[i]))
  {
    var r := SendTaskNotification(st, taskId, token, outcome);
    if r.report == Sent {
      var k := FindTask(st.tasks, taskId).value;
      assert r.store == MarkSent(st, k);
    }
  }

  lemma SendKeepsValid(st: Store, taskId: Id, token: string, outcome: SendOutcome)
    requires ValidStore(st)
    ensures ValidStore(SendTaskNotification(st, taskId, token, outcome).store)
  {
    var r := SendTaskNotification(st, taskId, token, outcome);
    if r.report == Sent {
      var k := FindTask(st.tasks, taskId).value;
      assert r.store == MarkSent(st, k);
      MarkSentKeepsValid(st, k);
    }
  }

  lemma MarkSentKeepsValid(st: Store, k: nat)
    requires ValidStore(st) && k < |st.tasks|
    ensures ValidStore(MarkSent(st, k))
  {
    var r := MarkSent(st, k);
    assert UserIds(r) == UserIds(st) && CategoryIds(r) == CategoryIds(st);
    forall t | t in r.tasks
      ensures t.owner in UserIds(r) && t.categories <= CategoryIds(r) && |t.title| <= TitleMaxLength
    {
      var i :| 0 <= i < |r.tasks| && r.tasks[i] == t;
      assert st.tasks[i] in st.tasks;
    }
  }

  /** Once a reminder went out, the next sweep no longer picks the task,
      whatever the time; after any other result the store is as before, so a
      task that was eligible stays eligible and is retried. */
  lemma {:induction false} SentLeavesSweep(st: Store, taskId: Id, token: string, outcome: SendOutcome, now: int)
    requires ValidStore(st)
    ensures var r := SendTaskNotification(st, taskId, token, outcome);
      && (r.report == Sent ==> forall t :: t in r.store.tasks && t.id == taskId ==> !Eligible(t, now))
      && (r.report != Sent ==> forall t :: t in st.tasks && Eligible(t, now) ==> t in r.store.tasks)
  {
    var r := SendTaskNotification(st, taskId, token, outcome);
    if r.report == Sent {
      var k := FindTask(st.tasks, taskId).value;
      assert r.store == MarkSent(st, k);
      assert TasksValid(st);
      OnlyTaskWithId(st.tasks, k);
      forall t | t in r.store.tasks && t.id == taskId
        ensures !Eligible(t, now)
      {
        var i :| 0 <= i < |r.store.tasks| && r.store.tasks[i] == t;
        assert st.tasks[i] in st.tasks;
      }
    }
  }

  // ---------------------------------------------------------------------
  // Repeated delivery of the same task

  /** The results of sending the same task again and again, each attempt
      seeing the store the previous one left. */
  function Resend(st: Store, taskId: Id, token: string, outcomes: seq<SendOutcome>): (r: seq<Report>)
    ensures |r| == |outcomes|
    decreases |outcomes|
  {
    if |outcomes| == 0 then []
    else
      var a := SendTaskNotification(st, taskId, token, outcomes[0]);
      [a.report] + Resend(a.store, taskId, token, outcomes[1..])
  }

  /** A task already marked as sent is never sent again. */
  lemma {:induction false} ResendAfterSent(st: Store, taskId: Id, token: string, outcomes: seq<SendOutcome>, k: nat)
    requires ValidStore(st) && k < |st.tasks| && st.tasks[k].id == taskId
    requires st.tasks[k].notificationSent && OwnerHasTelegram(st, st.tasks[k])
    ensures forall i :: 0 <= i < |outcomes| ==> Resend(st, taskId, token, outcomes)[i] == AlreadySent
    decreases |outcomes|
  {
    if |outcomes| > 0 {
      var j := FindTask(st.tasks, taskId).value;
      assert TasksValid(st) && j == k;
      ResendAfterSent(st, taskId, token, outcomes[1..], k);
    }
  }

  /** At most one report is a success, and every report after it says the
      task was already sent. */
  predicate SentOnce(r: seq<Report>) {
    && (forall i, j :: 0 <= i < |r| && 0 <= j < |r| && r[i] == Sent && r[j] == Sent ==> i == j)
    && (forall i, j :: 0 <= i < j < |r| && r[i] == Sent ==> r[j] == AlreadySent)
  }

  /** Prefixing one report keeps `SentOnce` when a success is followed
      only by already-sent reports. */
  lemma SentOnceCons(x: Report, rest: seq<Report>)
    requires SentOnce(rest)
    requires x == Sent ==> forall j :: 0 <= j < |rest| ==> rest[j] == AlreadySent
    ensures SentOnce([x] + rest)
  {
    var r := [x] + rest;
    assert forall i :: 0 < i < |r| ==> r[i] == rest[i - 1];
    if x != Sent {
      forall i, j | 0 <= i < j < |r| && r[i] == Sent
        ensures r[j] == AlreadySent
      {
        assert 0 <= i - 1 < j - 1 < |rest| && rest[i - 1] == Sent;
      }
    }
  }

  /** After a success the task is there, flagged, and its owner still has a
      telegram id. */
  lemma SentFlagsTask(st: Store, taskId: Id, token: string, outcome: SendOutcome)
    ensures var r := SendTaskNotification(st, taskId, token, outcome);
      r.report == Sent ==>
        exists k :: 0 <= k < |r.store.tasks| && r.store.tasks[k].id == taskId
          && r.store.tasks[k].notificationSent && OwnerHasTelegram(r.store, r.store.tasks[k])
  {
    var r := SendTaskNotification(st, taskId, token, outcome);
    if r.report == Sent {
      var k := FindTask(st.tasks, taskId).value;
      assert r.store == MarkSent(st, k);
      assert r.store.tasks[k].owner == st.tasks[k].owner;
    }
  }

  /** However often the sender runs for one task, at most one attempt
      delivers it, and every attempt after that one reports it as sent. */
  lemma {:induction false} ResendSucceedsAtMostOnce(st: Store, taskId: Id, token: string, outcomes: seq<SendOutcome>)
    requires ValidStore(st)
    ensures SentOnce(Resend(st, taskId, token, outcomes))
    decreases |outcomes|
  {
    if |outcomes| > 0 {
      var a := SendTaskNotification(st, taskId, token, outcomes[0]);
      var rest := Resend(a.store, taskId, token, outcomes[1..]);
      assert Resend(st, taskId, token, outcomes) == [a.report] + rest;
      SendKeepsValid(st, taskId, token, outcomes[0]);
      ResendSucceedsAtMostOnce(a.store, taskId, token, outcomes[1..]);
      if a.report == Sent {
        SentFlagsTask(st, taskId, token, outcomes[0]);
        var k :| 0 <= k < |a.store.tasks| && a.store.tasks[k].id == taskId
          && a.store.tasks[k].notificationSent && OwnerHasTelegram(a.store, a.store.tasks[k]);
        ResendAfterSent(a.store, taskId, token, outcomes[1..], k);
      }
      SentOnceCons(a.report, rest);
    }
  }
}
