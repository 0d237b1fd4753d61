/** The backend endpoints the bot calls (backend/tasks/views.py), each as a
    function from the store and the request's parameters to the store
    after the request and the HTTP reply. Request bodies carry a JSON
    `telegram_id` (absent, null and 0 are all falsy there). Query strings
    carry it as text, which the views convert to an integer; the model
    takes the parameter as an optional integer, absent when the query
    string has none or an empty one. */
module Views {
  import opened Wrappers
  import opened Text
  import opened Seqs
  import opened Models
  import opened Serializers

  datatype Reply<T> = Ok(code: int, body: T) | Error(code: int)

  datatype Handled<T> = Handled(store: Store, reply: Reply<T>)

  const BadRequest := 400
  const NotFoundCode := 404

  /** Truthiness of a JSON `telegram_id`. */
  predicate Truthy(tg: Option<int>) {
    tg.Some? && tg.value != 0
  }

  // ---------------------------------------------------------------------
  // Users

  /** The characters the username validator admits (`[\w.@+-]`, ASCII part). */
  predicate UsernameChar(c: char) {
    ('a' <= c <= 'z') || ('A' <= c <= 'Z') || ('0' <= c <= '9') || c in "_.@+-"
  }

  /** What the registration serializer accepts as a new user's name, once
      its `CharField` has trimmed the surrounding whitespace. */
  predicate UsernameAvailable(st: Store, name: string) {
    && name != ""
    && |name| <= UsernameMaxLength
    && (forall i :: 0 <= i < |name| ==> UsernameChar(name[i]))
    && (forall u :: u in st.users ==> u.username != name)
  }

  /** The name a new registration gets: the supplied one, or `telegram_<id>`. */
  function DefaultUsername(tg: int, username: Option<string>): (r: string)
    ensures username.Some? && username.value != "" ==> r == username.value
    ensures username.None? || username.value == "" ==> r == "telegram_" + IntToString(tg)
  {
    if username.Some? && username.value != "" then username.value else "telegram_" + IntToString(tg)
  }

  /** `register_telegram`: get-or-create keyed on the telegram id. A new
      user's name is the supplied or default one as the registration
      serializer cleans it: trimmed, then checked. */
  function RegisterTelegram(st: Store, tg: Option<int>, username: Option<string>, newId: Id): (r: Handled<User>)
    requires newId !in UserIds(st)
    ensures !Truthy(tg) ==> r == Handled(st, Error(BadRequest))
    ensures Truthy(tg) && (exists u :: u in st.users && u.telegramId == tg) ==>
      r.store == st && r.reply.Ok? && r.reply.code == 200 && r.reply.body in st.users && r.reply.body.telegramId == tg
    ensures r.reply.Ok? && r.reply.code == 201 ==>
      && r.store == st.(users := st.users + [r.reply.body])
      && r.reply.body == User(newId, Trim(DefaultUsername(tg.value, username)), tg)
      && (forall u :: u in st.users ==> u.telegramId != tg)
    ensures Truthy(tg) && (forall u :: u in st.users ==> u.telegramId != tg) ==>
      && (r.reply.Ok? <==> UsernameAvailable(st, Trim(DefaultUsername(tg.value, username))))
      && (r.reply.Ok? ==> r.reply.code == 201)
    ensures r.reply.Error? ==> r.store == st && r.reply.code == BadRequest
    ensures r.reply.Ok? ==> r.reply.code in {200, 201}
  {
    if !Truthy(tg) then Handled(st, Error(BadRequest))
    else match FindByTelegram(st.users, tg.value)
      case Some(k) =>
        assert st.users[k] in st.users;
        Handled(st, Ok(200, st.users[k]))
      case None => CreateUser(st, tg.value, Trim(DefaultUsername(tg.value, username)), newId)
  }

  /** The create half of `register_telegram`: the registration serializer
      saves the user when the cleaned name is available. */
  function CreateUser(st: Store, tg: int, name: string, newId: Id): (r: Handled<User>)
    ensures r.reply.Ok? <==> UsernameAvailable(st, name)
    ensures r.reply.Ok? ==> r == Handled(st.(users := st.users + [User(newId, name, Some(tg))]), Ok(201, User(newId, name, Some(tg))))
    ensures r.reply.Error? ==> r == Handled(st, Error(BadRequest))
  {
    if UsernameAvailable(st, name) then
      var u := User(newId, name, Some(tg));
      Handled(st.(users := st.users + [u]), Ok(201, u))
    else Handled(st, Error(BadRequest))
  }

  /** Appending a user whose id, username and telegram id are all new keeps
      the user constraints. */
  lemma AppendUserKeepsUsersValid(us: seq<User>, u: User)
    requires UsersValid(us)
    requires forall v :: v in us ==> v.id != u.id && v.username != u.username && v.telegramId != u.telegramId
    ensures UsersValid(us + [u])
  {
    var us' := us + [u];
    forall i, j | 0 <= i < |us'| && 0 <= j < |us'| && us'[i].id == us'[j].id
      ensures i == j
    {
      if i < |us| { assert us[i] in us; }
      if j < |us| { assert us[j] in us; }
    }
    forall i, j | 0 <= i < |us'| && 0 <= j < |us'| && us'[i].username == us'[j].username
      ensures i == j
    {
      if i < |us| { assert us[i] in us; }
      if j < |us| { assert us[j] in us; }
    }
    forall i, j | 0 <= i < |us'| && 0 <= j < |us'| && us'[i].telegramId.Some? && us'[i].telegramId == us'[j].telegramId
      ensures i == j
    {
      if i < |us| { assert us[i] in us; }
      if j < |us| { assert us[j] in us; }
    }
  }

  /** Adding a user only enlarges the set of owners, so categories and tasks
      stay valid. */
  lemma AppendUserKeepsLinks(st: Store, u: User)
    requires CategoriesValid(st) && TasksValid(st)
    ensures var st' := st.(users := st.users + [u]);
      CategoriesValid(st') && TasksValid(st')
  {
    var st' := st.(users := st.users + [u]);
    assert UserIds(st) <= UserIds(st') by {
      forall id | id in UserIds(st) ensures id in UserIds(st') {
        var v :| v in st.users && v.id == id;
        assert v in st'.users;
      }
    }
    assert CategoryIds(st') == CategoryIds(st);
  }

  /** Registration keeps the store's constraints. */
  lemma RegisterKeepsValid(st: Store, tg: Option<int>, username: Option<string>, newId: Id)
    requires ValidStore(st) && newId !in UserIds(st)
    ensures ValidStore(RegisterTelegram(st, tg, username, newId).store)
  {
    var r := RegisterTelegram(st, tg, username, newId);
    if r.reply.Ok? && r.reply.code == 201 {
      var u := r.reply.body;
      assert UsernameAvailable(st, u.username);
      forall v | v in st.users
        ensures v.id != u.id && v.username != u.username && v.telegramId != u.telegramId
      {
        assert v.id in UserIds(st);
      }
      AppendUserKeepsUsersValid(st.users, u);
      AppendUserKeepsLinks(st, u);
    }
  }

  /** Surrounding whitespace in a supplied username makes no difference:
      registering ` alice ` does what registering `alice` does. */
  lemma RegisterTrimsUsername(st: Store, tg: Option<int>, name: string, newId: Id)
    requires newId !in UserIds(st)
    requires Trim(name) != ""
    ensures RegisterTelegram(st, tg, Some(name), newId) == RegisterTelegram(st, tg, Some(Trim(name)), newId)
  {
    var trimmed := Trim(name);
    TrimFixes(name);
    assert name != [];
    if Truthy(tg) {
      assert DefaultUsername(tg.value, Some(name)) == name;
      assert DefaultUsername(tg.value, Some(trimmed)) == trimmed;
      assert Trim(trimmed) == trimmed;
    }
  }

  /** Registering an already registered telegram id, with any username,
      returns the same user with 200 and changes nothing. */
  lemma {:induction false} RegisterTelegramIdempotent(st: Store, tg: Option<int>, name1: Option<string>, name2: Option<string>, id1: Id, id2: Id)
    requires ValidStore(st) && id1 !in UserIds(st)
    requires RegisterTelegram(st, tg, name1, id1).reply.Ok?
    requires id2 !in UserIds(RegisterTelegram(st, tg, name1, id1).store)
    ensures var first := RegisterTelegram(st, tg, name1, id1);
      RegisterTelegram(first.store, tg, name2, id2) == Handled(first.store, Ok(200, first.reply.body))
  {
    var first := RegisterTelegram(st, tg, name1, id1);
    RegisterKeepsValid(st, tg, name1, id1);
    var s1 := first.store;
    var u := first.reply.body;
    assert Truthy(tg) && u in s1.users && u.telegramId == tg;
    var m :| 0 <= m < |s1.users| && s1.users[m] == u;
    var k := FindByTelegram(s1.users, tg.value);
    assert k.Some?;
    TelegramIdsUnique(s1.users, k.value, m);
    assert RegisterTelegram(s1, tg, name2, id2) == Handled(s1, Ok(200, s1.users[k.value]));
  }

  /** In valid users, two users with the same telegram id are the same. */
  lemma TelegramIdsUnique(us: seq<User>, k: nat, m: nat)
    requires UsersValid(us)
    requires k < |us| && m < |us| && us[k].telegramId.Some? && us[k].telegramId == us[m].telegramId
    ensures k == m
  {
  }

  /** `UserViewSet.by_telegram`. */
  function UserByTelegram(st: Store, tg: Option<int>): (r: Reply<User>)
    ensures tg.None? <==> r == Error(BadRequest)
    ensures r == Error(NotFoundCode) <==> tg.Some? && forall u :: u in st.users ==> u.telegramId != tg
    ensures r.Ok? ==> r.code == 200 && r.body in st.users && r.body.telegramId == tg
  {
    if tg.None? then Error(BadRequest)
    else match FindByTelegram(st.users, tg.value)
      case None => Error(NotFoundCode)
      case Some(k) =>
        assert st.users[k] in st.users;
        Ok(200, st.users[k])
  }

  // ---------------------------------------------------------------------
  // Query filters

  /** List query parameters; an absent or empty text parameter is "". */
  datatype Query = Query(userId: string, telegramId: Option<int>, status: string)

  predicate OwnerHasTelegramId(st: Store, owner: Id, tg: int) {
    exists u :: u in st.users && u.id == owner && u.telegramId == Some(tg)
  }

  /** `user_id` wins over `telegram_id`; with neither, everything matches. */
  predicate OwnerMatches(st: Store, owner: Id, q: Query) {
    if q.userId != "" then owner == q.userId
    else if q.telegramId.Some? then OwnerHasTelegramId(st, owner, q.telegramId.value)
    else true
  }

  predicate StatusMatches(t: Task, status: string) {
    status == "" || StatusName(t.status) == status
  }

  function CategoryMatches(st: Store, q: Query): Category -> bool {
    (c: Category) => OwnerMatches(st, c.owner, q)
  }

  function TaskOwnerMatches(st: Store, q: Query): Task -> bool {
    (t: Task) => OwnerMatches(st, t.owner, q)
  }

  function TaskStatusMatches(status: string): Task -> bool {
    (t: Task) => StatusMatches(t, status)
  }

  /** `CategoryViewSet.get_queryset`, in the model's name order. */
  function CategoryQuery(st: Store, q: Query): (r: seq<Category>)
    ensures forall c :: c in r <==> c in st.categories && OwnerMatches(st, c.owner, q)
    ensures forall i, j :: 0 <= i < j < |r| ==> StrLe(r[i].name, r[j].name)
  {
    var r := SortCategories(Filter(st.categories, CategoryMatches(st, q)));
    assert forall c :: c in r <==> c in multiset(r);
    r
  }

  /** `TaskViewSet.get_queryset`, newest first. */
  function TaskQuery(st: Store, q: Query): (r: seq<Task>)
    ensures forall t :: t in r <==> t in st.tasks && OwnerMatches(st, t.owner, q) && StatusMatches(t, q.status)
    ensures forall i, j :: 0 <= i < j < |r| ==> r[i].createdAt >= r[j].createdAt
  {
    var owned := Filter(st.tasks, TaskOwnerMatches(st, q));
    var r := SortTasks(Filter(owned, TaskStatusMatches(q.status)));
    assert forall t :: t in r <==> t in multiset(r);
    r
  }

  /** A non-empty `user_id` makes `telegram_id` irrelevant, for both
      querysets. */
  lemma {:induction false} UserIdTakesPrecedence(st: Store, q: Query, tg: Option<int>)
    requires q.userId != ""
    ensures CategoryQuery(st, q) == CategoryQuery(st, q.(telegramId := tg))
    ensures TaskQuery(st, q) == TaskQuery(st, q.(telegramId := tg))
  {
    var q' := q.(telegramId := tg);
    FilterCongruent(st.categories, CategoryMatches(st, q), CategoryMatches(st, q'));
    FilterCongruent(st.tasks, TaskOwnerMatches(st, q), TaskOwnerMatches(st, q'));
  }

  // ---------------------------------------------------------------------
  // Tasks by telegram id

  function ListItems(st: Store, ts: seq<Task>): (r: seq<TaskItem>)
    ensures |r| == |ts|
    ensures forall i :: 0 <= i < |ts| ==> r[i] == ListItem(st, ts[i])
  {
    if |ts| == 0 then [] else [ListItem(st, ts[0])] + ListItems(st, ts[1..])
  }

  lemma ListItemsMembers(st: Store, ts: seq<Task>)
    ensures forall item :: item in ListItems(st, ts) <==> exists t :: t in ts && item == ListItem(st, t)
  {
    var items := ListItems(st, ts);
    forall item
      ensures item in items <==> exists t :: t in ts && item == ListItem(st, t)
    {
      if item in items {
        var i :| 0 <= i < |items| && items[i] == item;
        assert ts[i] in ts;
      }
      if exists t :: t in ts && item == ListItem(st, t) {
        var t :| t in ts && item == ListItem(st, t);
        var i :| 0 <= i < |ts| && ts[i] == t;
        assert items[i] == item;
      }
    }
  }

  /** `TaskViewSet.by_telegram`: that user's tasks, newest first. */
  function TasksByTelegram(st: Store, tg: Option<int>): (r: Reply<seq<TaskItem>>)
    ensures tg.None? <==> r == Error(BadRequest)
    ensures r.Ok? ==> r.code == 200
    ensures r.Ok? ==> forall item :: item in r.body <==>
      exists t :: t in st.tasks && OwnerHasTelegramId(st, t.owner, tg.value) && item == ListItem(st, t)
    ensures r.Ok? ==> forall i, j :: 0 <= i < j < |r.body| ==> r.body[i].createdAt >= r.body[j].createdAt
  {
    if tg.None? then Error(BadRequest)
    else
      var ts := TaskQuery(st, Query("", tg, ""));
      var items := ListItems(st, ts);
      ListItemsMembers(st, ts);
      assert forall t :: t in ts <==> t in st.tasks && OwnerHasTelegramId(st, t.owner, tg.value);
      Ok(200, items)
  }

  // ---------------------------------------------------------------------
  // Creating a task for a telegram id

  /** `create_for_telegram`: the owner is the user with that telegram id,
      whatever `user` the body names. */
  function CreateForTelegram(st: Store, tg: Option<int>, p: TaskPayload, newId: Id, now: int): (r: Handled<Task>)
    ensures !Truthy(tg) ==> r == Handled(st, Error(BadRequest))
    ensures Truthy(tg) && (forall u :: u in st.users ==> u.telegramId != tg) ==> r == Handled(st, Error(NotFoundCode))
    ensures r.reply.Error? ==> r.store == st
    ensures r.reply.Ok? ==>
      && r.reply.code == 201
      && r.store == st.(tasks := st.tasks + [r.reply.body])
      && OwnerHasTelegramId(st, r.reply.body.owner, tg.value)
  {
    if !Truthy(tg) then Handled(st, Error(BadRequest))
    else match FindByTelegram(st.users, tg.value)
      case None => Handled(st, Error(NotFoundCode))
      case Some(k) =>
        var u := st.users[k];
        assert u in st.users;
        match Validate(st, p.(user := Some(u.id)), false)
        case Invalid(_) => Handled(st, Error(BadRequest))
        case Valid(d) =>
          var s' := Create(st, d, newId, now);
          Handled(s', Ok(201, s'.tasks[|st.tasks|]))
  }

  /** The `user` a client puts in the body makes no difference. */
  lemma CreateForTelegramForcesUser(st: Store, tg: Option<int>, p: TaskPayload, other: Option<Id>, newId: Id, now: int)
    ensures CreateForTelegram(st, tg, p, newId, now) == CreateForTelegram(st, tg, p.(user := other), newId, now)
  {
    assert p.(user := other).(user := p.user) == p;
  }

  /** With a known telegram id, a body whose title is present, non-blank and
      at most 255 characters once trimmed, whose texts hold no NUL
      character, whose status (if any) is a valid choice and whose
      category ids (if any) are all non-blank creates the task (201),
      linked only to categories of its owner, and the store stays valid;
      any other body is rejected with 400. */
  lemma {:induction false} CreateForTelegramSpec(st: Store, tg: Option<int>, p: TaskPayload, newId: Id, now: int)
    requires ValidStore(st) && newId !in TaskIds(st)
    requires Truthy(tg) && exists u :: u in st.users && u.telegramId == tg
    ensures var r := CreateForTelegram(st, tg, p, newId, now);
      && (r.reply.Ok? <==>
            && p.title.Some? && CleanText(p.title.value, false).Some? && |Trim(p.title.value)| <= TitleMaxLength
            && (p.description.Some? ==> CleanText(p.description.value, true).Some?)
            && (p.status.Some? ==> p.status.value in {"pending", "in_progress", "completed"})
            && (p.categoryIds.Some? ==> forall i :: 0 <= i < |p.categoryIds.value| ==> CleanText(p.categoryIds.value[i], false).Some?))
      && (r.reply.Error? ==> r.reply.code == BadRequest)
      && ValidStore(r.store)
      && (r.reply.Ok? ==> forall cid :: cid in r.reply.body.categories ==>
            exists c :: c in st.categories && c.id == cid && c.owner == r.reply.body.owner)
  {
    var k := FindByTelegram(st.users, tg.value).value;
    var u := st.users[k];
    assert u in st.users;
    var p' := p.(user := Some(u.id));
    if Validate(st, p', false).Valid? {
      CreateSpec(st, p', newId, now);
    }
  }
}
