/** The backend's records (backend/tasks/models.py) and the constraints the
    database keeps for them, over an in-memory store of three tables.
    Identifiers are opaque strings; timestamps are integers. */
module Models {
  import opened Wrappers
  import opened Seqs

  type Id = string

  datatype Status = Pending | InProgress | Completed

  /** The stored value of each status choice. */
  function StatusName(s: Status): string {
    match s
    case Pending => "pending"
    case InProgress => "in_progress"
    case Completed => "completed"
  }

  /** The status choice a stored value denotes, if any. */
  function ParseStatus(name: string): (r: Option<Status>)
    ensures r.Some? ==> StatusName(r.value) == name
  {
    if name == "pending" then Some(Pending)
    else if name == "in_progress" then Some(InProgress)
    else if name == "completed" then Some(Completed)
    else None
  }

  /** Every status reads back from its stored value, and no other value
      denotes a status. */
  lemma StatusNameRoundTrip(s: Status, name: string)
    ensures ParseStatus(StatusName(s)) == Some(s)
    ensures ParseStatus(name).None? <==> name !in {"pending", "in_progress", "completed"}
  {
  }

  const NameMaxLength := 100
  const ColorMaxLength := 7
  const TitleMaxLength := 255
  const UsernameMaxLength := 150
  const DefaultColor: string := "#3498db"

  datatype User = User(id: Id, username: string, telegramId: Option<int>)

  datatype Category = Category(id: Id, name: string, color: string, owner: Id, createdAt: int)

  datatype Task = Task(
    id: Id,
    title: string,
    description: string,
    status: Status,
    dueDate: Option<int>,
    owner: Id,
    categories: set<Id>,
    createdAt: int,
    updatedAt: int,
    notificationSent: bool)

  datatype Store = Store(users: seq<User>, categories: seq<Category>, tasks: seq<Task>)

  /** Python truthiness of `user.telegram_id`: null and 0 both count as none. */
  predicate HasTelegram(u: User) {
    u.telegramId.Some? && u.telegramId.value != 0
  }

  function UserIds(st: Store): set<Id> {
    set u | u in st.users :: u.id
  }

  function CategoryIds(st: Store): set<Id> {
    set c | c in st.categories :: c.id
  }

  function TaskIds(st: Store): set<Id> {
    set t | t in st.tasks :: t.id
  }

  /** Primary keys, the unique username, and the nullable unique telegram id. */
  predicate UsersValid(users: seq<User>) {
    && (forall i, j :: 0 <= i < |users| && 0 <= j < |users| && users[i].id == users[j].id ==> i == j)
    && (forall i, j :: 0 <= i < |users| && 0 <= j < |users| && users[i].username == users[j].username ==> i == j)
    && (forall i, j ::
          0 <= i < |users| && 0 <= j < |users| && users[i].telegramId.Some? && users[i].telegramId == users[j].telegramId
          ==> i == j)
  }

  /** Primary keys, `unique_together = (name, user)`, the owner foreign key
      and the column widths. */
  predicate CategoriesValid(st: Store) {
    var cs := st.categories;
    && (forall i, j :: 0 <= i < |cs| && 0 <= j < |cs| && cs[i].id == cs[j].id ==> i == j)
    && (forall i, j :: 0 <= i < |cs| && 0 <= j < |cs| && cs[i].name == cs[j].name && cs[i].owner == cs[j].owner ==> i == j)
    && (forall c :: c in cs ==> c.owner in UserIds(st) && |c.name| <= NameMaxLength && |c.color| <= ColorMaxLength)
  }

  /** No two tasks share an id. */
  predicate UniqueTaskIds(ts: seq<Task>) {
    forall i, j :: 0 <= i < |ts| && 0 <= j < |ts| && ts[i].id == ts[j].id ==> i == j
  }

  /** Primary keys, the owner foreign key, the category links and the title width. */
  predicate TasksValid(st: Store) {
    && UniqueTaskIds(st.tasks)
    && (forall t :: t in st.tasks ==> t.owner in UserIds(st) && t.categories <= CategoryIds(st) && |t.title| <= TitleMaxLength)
  }

  predicate ValidStore(st: Store) {
    UsersValid(st.users) && CategoriesValid(st) && TasksValid(st)
  }

  /** A task as the model's field defaults create it: no description, status
      pending, no due date, no categories, not notified. */
  function NewTask(id: Id, title: string, owner: Id, now: int): (t: Task)
    ensures t.status == Pending && !t.notificationSent
    ensures t.description == "" && t.dueDate.None? && t.categories == {}
    ensures t.createdAt == now && t.updatedAt == now
  {
    Task(id, title, "", Pending, None, owner, {}, now, now, false)
  }

  /** A category with the default color. */
  function NewCategory(id: Id, name: string, owner: Id, now: int): (c: Category)
    ensures c.color == DefaultColor && |c.color| <= ColorMaxLength
  {
    Category(id, name, DefaultColor, owner, now)
  }

  /** The position of the user with id `id`. */
  function FindUser(users: seq<User>, id: Id): (r: Option<nat>)
    ensures r.None? <==> forall i :: 0 <= i < |users| ==> users[i].id != id
    ensures r.Some? ==> r.value < |users| && users[r.value].id == id
  {
    if |users| == 0 then None
    else if users[0].id == id then Some(0)
    else match FindUser(users[1..], id)
      case None => None
      case Some(k) => Some(k + 1)
  }

  /** The position of the user with telegram id `tg`. */
  function FindByTelegram(users: seq<User>, tg: int): (r: Option<nat>)
    ensures r.None? <==> forall i :: 0 <= i < |users| ==> users[i].telegramId != Some(tg)
    ensures r.Some? ==> r.value < |users| && users[r.value].telegramId == Some(tg)
  {
    IndexWhere(users, (u: User) => u.telegramId == Some(tg))
  }

  /** The position of the task with id `id`. */
  function FindTask(tasks: seq<Task>, id: Id): (r: Option<nat>)
    ensures r.None? <==> forall i :: 0 <= i < |tasks| ==> tasks[i].id != id
    ensures r.Some? ==> r.value < |tasks| && tasks[r.value].id == id
  {
    IndexWhere(tasks, (t: Task) => t.id == id)
  }

  /** Whether the owner of `t` has a (truthy) telegram id. */
  predicate OwnerHasTelegram(st: Store, t: Task) {
    var k := FindUser(st.users, t.owner);
    k.Some? && HasTelegram(st.users[k.value])
  }

  /** The telegram id of the owner of `t`, if there is one. */
  function OwnerTelegram(st: Store, t: Task): Option<int> {
    var k := FindUser(st.users, t.owner);
    if k.Some? then st.users[k.value].telegramId else None
  }

  // ---------------------------------------------------------------------
  // Orderings (Meta.ordering)

  /** Categories order by name, ascending. */
  const ByName: (Category, Category) -> bool := (a: Category, b: Category) => StrLe(a.name, b.name)

  /** Tasks order by creation time, newest first. */
  const NewestFirst: (Task, Task) -> bool := (a: Task, b: Task) => a.createdAt >= b.createdAt

  lemma ByNamePreorder()
    ensures TotalPreorder(ByName)
  {
    forall a: Category, b: Category
      ensures ByName(a, b) || ByName(b, a)
    {
      StrLeTotal(a.name, b.name);
    }
    forall a: Category, b: Category, c: Category | ByName(a, b) && ByName(b, c)
      ensures ByName(a, c)
    {
      StrLeTransitive(a.name, b.name, c.name);
    }
  }

  lemma NewestFirstPreorder()
    ensures TotalPreorder(NewestFirst)
  {
  }

  /** A queryset of categories in the model's default order. */
  function SortCategories(cs: seq<Category>): (r: seq<Category>)
    ensures multiset(r) == multiset(cs)
    ensures forall i, j :: 0 <= i < j < |r| ==> StrLe(r[i].name, r[j].name)
  {
    ByNamePreorder();
    SortBy(cs, ByName)
  }

  /** A queryset of tasks in the model's default order. */
  function SortTasks(ts: seq<Task>): (r: seq<Task>)
    ensures multiset(r) == multiset(ts)
    ensures forall i, j :: 0 <= i < j < |r| ==> r[i].createdAt >= r[j].createdAt
  {
    NewestFirstPreorder();
    SortBy(ts, NewestFirst)
  }

  /** `task.categories.all()`: the linked categories, by name. */
  function CategoriesOf(st: Store, t: Task): (r: seq<Category>)
    ensures forall c :: c in r <==> c in st.categories && c.id in t.categories
    ensures forall i, j :: 0 <= i < j < |r| ==> StrLe(r[i].name, r[j].name)
  {
    var linked := Filter(st.categories, (c: Category) => c.id in t.categories);
    var r := SortCategories(linked);
    assert forall c :: c in r <==> c in linked by {
      forall c ensures c in r <==> c in linked {
        assert c in r <==> c in multiset(r);
      }
    }
    r
  }

  // ---------------------------------------------------------------------
  // Cascading delete of a user

  /** Deleting a user deletes its categories and tasks (`on_delete=CASCADE`)
      and, with the categories, their links from any remaining task. */
  function DeleteUser(st: Store, uid: Id): Store {
    Store(
      Filter(st.users, UserOtherThan(uid)),
      Filter(st.categories, CategoryNotOwnedBy(uid)),
      MapUnlink(Filter(st.tasks, TaskNotOwnedBy(uid)), OwnedCategoryIds(st, uid)))
  }

  function UserOtherThan(uid: Id): User -> bool {
    (u: User) => u.id != uid
  }

  function CategoryNotOwnedBy(uid: Id): Category -> bool {
    (c: Category) => c.owner != uid
  }

  function TaskNotOwnedBy(uid: Id): Task -> bool {
    (t: Task) => t.owner != uid
  }

  function OwnedCategoryIds(st: Store, uid: Id): set<Id> {
    set c | c in st.categories && c.owner == uid :: c.id
  }

  function UserKey(u: User): string { u.id }
  function UsernameKey(u: User): string { u.username }
  function CategoryKey(c: Category): string { c.id }
  function TaskKey(t: Task): string { t.id }

  function MapUnlink(ts: seq<Task>, gone: set<Id>): (r: seq<Task>)
    ensures |r| == |ts|
    ensures forall i :: 0 <= i < |r| ==> r[i] == ts[i].(categories := ts[i].categories - gone)
  {
    if |ts| == 0 then [] else [ts[0].(categories := ts[0].categories - gone)] + MapUnlink(ts[1..], gone)
  }

  function AnyUser(u: User): bool { true }
  function HasTelegramKey(u: User): bool { u.telegramId.Some? }
  function TelegramKey(u: User): Option<int> { u.telegramId }
  function AnyCategory(c: Category): bool { true }
  function AnyTask(t: Task): bool { true }
  function NameOwnerKey(c: Category): (string, Id) { (c.name, c.owner) }

  /** Dropping users keeps their keys unique. */
  lemma FilterKeepsUsersValid(us: seq<User>, p: User -> bool)
    requires UsersValid(us)
    ensures UsersValid(Filter(us, p))
  {
    var r := Filter(us, p);
    assert UniqueWhere(us, AnyUser, UserKey);
    assert UniqueWhere(us, AnyUser, UsernameKey);
    assert UniqueWhere(us, HasTelegramKey, TelegramKey);
    FilterKeepsUniqueWhere(us, p, AnyUser, UserKey);
    FilterKeepsUniqueWhere(us, p, AnyUser, UsernameKey);
    FilterKeepsUniqueWhere(us, p, HasTelegramKey, TelegramKey);
    assert UniqueWhere(r, AnyUser, UserKey);
    assert UniqueWhere(r, AnyUser, UsernameKey);
    assert UniqueWhere(r, HasTelegramKey, TelegramKey);
  }

  /** Dropping categories keeps their ids and their (name, owner) pairs unique. */
  lemma FilterKeepsCategoryKeys(cs: seq<Category>, p: Category -> bool)
    requires forall i, j :: 0 <= i < |cs| && 0 <= j < |cs| && cs[i].id == cs[j].id ==> i == j
    requires forall i, j :: 0 <= i < |cs| && 0 <= j < |cs| && cs[i].name == cs[j].name && cs[i].owner == cs[j].owner ==> i == j
    ensures var r := Filter(cs, p);
      && (forall i, j :: 0 <= i < |r| && 0 <= j < |r| && r[i].id == r[j].id ==> i == j)
      && (forall i, j :: 0 <= i < |r| && 0 <= j < |r| && r[i].name == r[j].name && r[i].owner == r[j].owner ==> i == j)
  {
    var r := Filter(cs, p);
    assert UniqueWhere(cs, AnyCategory, CategoryKey);
    assert UniqueWhere(cs, AnyCategory, NameOwnerKey);
    FilterKeepsUniqueWhere(cs, p, AnyCategory, CategoryKey);
    FilterKeepsUniqueWhere(cs, p, AnyCategory, NameOwnerKey);
    assert UniqueWhere(r, AnyCategory, CategoryKey);
    assert UniqueWhere(r, AnyCategory, NameOwnerKey);
  }

  /** Dropping tasks keeps their ids unique. */
  lemma FilterKeepsTaskIds(ts: seq<Task>, p: Task -> bool)
    requires UniqueTaskIds(ts)
    ensures UniqueTaskIds(Filter(ts, p))
  {
    var r := Filter(ts, p);
    assert UniqueWhere(ts, AnyTask, TaskKey);
    FilterKeepsUniqueWhere(ts, p, AnyTask, TaskKey);
    assert UniqueWhere(r, AnyTask, TaskKey);
  }

  lemma DeleteUserKeepsUsersValid(st: Store, uid: Id)
    requires ValidStore(st)
    ensures UsersValid(DeleteUser(st, uid).users)
  {
    assert UsersValid(st.users);
    FilterKeepsUsersValid(st.users, UserOtherThan(uid));
    assert DeleteUser(st, uid).users == Filter(st.users, UserOtherThan(uid));
  }

  lemma DeleteUserKeepsCategoriesValid(st: Store, uid: Id)
    requires ValidStore(st)
    ensures CategoriesValid(DeleteUser(st, uid))
  {
    var st' := DeleteUser(st, uid);
    var cs := st'.categories;
    assert CategoriesValid(st);
    FilterKeepsCategoryKeys(st.categories, CategoryNotOwnedBy(uid));
    assert cs == Filter(st.categories, CategoryNotOwnedBy(uid));
    forall c | c in cs
      ensures c.owner in UserIds(st') && |c.name| <= NameMaxLength && |c.color| <= ColorMaxLength
    {
      var u :| u in st.users && u.id == c.owner;
      assert u in st'.users;
    }
  }

  /** Unlinking categories keeps task ids unique. */
  lemma UnlinkKeepsIdsUnique(ts: seq<Task>, gone: set<Id>)
    requires UniqueTaskIds(ts)
    ensures UniqueTaskIds(MapUnlink(ts, gone))
  {
    var r := MapUnlink(ts, gone);
    forall i, j | 0 <= i < |r| && 0 <= j < |r| && r[i].id == r[j].id
      ensures i == j
    {
      assert r[i].id == ts[i].id && r[j].id == ts[j].id;
    }
  }

  lemma DeleteUserKeepsTaskIdsUnique(st: Store, uid: Id)
    requires ValidStore(st)
    ensures UniqueTaskIds(DeleteUser(st, uid).tasks)
  {
    assert TasksValid(st);
    FilterKeepsTaskIds(st.tasks, TaskNotOwnedBy(uid));
    UnlinkKeepsIdsUnique(Filter(st.tasks, TaskNotOwnedBy(uid)), OwnedCategoryIds(st, uid));
    assert DeleteUser(st, uid).tasks == MapUnlink(Filter(st.tasks, TaskNotOwnedBy(uid)), OwnedCategoryIds(st, uid));
  }

  lemma DeleteUserKeepsTaskLinks(st: Store, uid: Id, t: Task)
    requires ValidStore(st)
    requires t in DeleteUser(st, uid).tasks
    ensures t.owner in UserIds(DeleteUser(st, uid))
    ensures t.categories <= CategoryIds(DeleteUser(st, uid))
  {
    var st' := DeleteUser(st, uid);
    var gone := OwnedCategoryIds(st, uid);
    var kept := Filter(st.tasks, TaskNotOwnedBy(uid));
    assert st'.tasks == MapUnlink(kept, gone);
    var i :| 0 <= i < |st'.tasks| && st'.tasks[i] == t;
    var k := kept[i];
    assert k in st.tasks && t.owner == k.owner && t.categories == k.categories - gone;
    var u :| u in st.users && u.id == k.owner;
    assert u in st'.users;
    forall cid | cid in t.categories
      ensures cid in CategoryIds(st')
    {
      var c :| c in st.categories && c.id == cid;
      assert c.owner != uid;
      assert c in st'.categories;
    }
  }

  lemma DeleteUserKeepsTasksValid(st: Store, uid: Id)
    requires ValidStore(st)
    ensures TasksValid(DeleteUser(st, uid))
  {
    var st' := DeleteUser(st, uid);
    DeleteUserKeepsTaskIdsUnique(st, uid);
    forall t | t in st'.tasks
      ensures t.owner in UserIds(st') && t.categories <= CategoryIds(st') && |t.title| <= TitleMaxLength
    {
      DeleteUserKeepsTaskLinks(st, uid, t);
      var kept := Filter(st.tasks, TaskNotOwnedBy(uid));
      var i :| 0 <= i < |st'.tasks| && st'.tasks[i] == t;
      assert kept[i] in st.tasks;
    }
  }

  /** After the delete nothing of the user is left, everything else is
      kept (tasks losing only their links to the deleted categories), and
      the store constraints still hold. */
  lemma DeleteUserCascades(st: Store, uid: Id)
    requires ValidStore(st)
    ensures var st' := DeleteUser(st, uid);
      && ValidStore(st')
      && uid !in UserIds(st')
      && (forall c :: c in st'.categories ==> c.owner != uid)
      && (forall t :: t in st'.tasks ==> t.owner != uid)
      && (forall u :: u in st.users && u.id != uid ==> u in st'.users)
      && (forall c :: c in st.categories && c.owner != uid ==> c in st'.categories)
      && (forall t :: t in st.tasks && t.owner != uid ==>
            t.(categories := t.categories - OwnedCategoryIds(st, uid)) in st'.tasks)
      && (forall t' :: t' in st'.tasks ==>
            exists t :: t in st.tasks && t.owner != uid && t' == t.(categories := t.categories - OwnedCategoryIds(st, uid)))
  {
    DeleteUserKeepsUsersValid(st, uid);
    DeleteUserKeepsCategoriesValid(st, uid);
    DeleteUserKeepsTasksValid(st, uid);
    assert DeleteUser(st, uid).users == Filter(st.users, UserOtherThan(uid));
    UnlinkKeepsOthers(st.tasks, uid, OwnedCategoryIds(st, uid));
    assert DeleteUser(st, uid).tasks == MapUnlink(Filter(st.tasks, TaskNotOwnedBy(uid)), OwnedCategoryIds(st, uid));
  }

  /** Dropping a user's tasks and unlinking categories leaves exactly the
      other users' tasks, each losing only the links to `gone`. */
  lemma UnlinkKeepsOthers(ts: seq<Task>, uid: Id, gone: set<Id>)
    ensures var r := MapUnlink(Filter(ts, TaskNotOwnedBy(uid)), gone);
      && (forall t :: t in r ==> t.owner != uid)
      && (forall t :: t in ts && t.owner != uid ==> t.(categories := t.categories - gone) in r)
      && (forall t' :: t' in r ==> exists t :: t in ts && t.owner != uid && t' == t.(categories := t.categories - gone))
  {
    var kept := Filter(ts, TaskNotOwnedBy(uid));
    var r := MapUnlink(kept, gone);
    forall t' | t' in r
      ensures t'.owner != uid
      ensures exists t :: t in ts && t.owner != uid && t' == t.(categories := t.categories - gone)
    {
      var i :| 0 <= i < |r| && r[i] == t';
      assert kept[i] in kept;
    }
    forall t | t in ts && t.owner != uid
      ensures t.(categories := t.categories - gone) in r
    {
      assert t in kept;
      var i :| 0 <= i < |kept| && kept[i] == t;
      assert r[i] == t.(categories := t.categories - gone);
    }
  }

  /** Adding a new category keeps a valid store valid exactly when its owner
      exists, its name fits the column and the owner has no category of that
      name (`unique_together`); its default color always fits. */
  lemma NewCategoryValidIff(st: Store, id: Id, name: string, owner: Id, now: int)
    requires ValidStore(st) && id !in CategoryIds(st)
    ensures var st' := st.(categories := st.categories + [NewCategory(id, name, owner, now)]);
      ValidStore(st') <==>
        owner in UserIds(st) && |name| <= NameMaxLength
        && forall c :: c in st.categories ==> c.name != name || c.owner != owner
  {
    var c := NewCategory(id, name, owner, now);
    var cs := st.categories + [c];
    var st' := st.(categories := cs);
    assert UserIds(st') == UserIds(st);
    assert cs[|cs| - 1] == c;
    if ValidStore(st') {
      assert c in cs;
      forall d | d in st.categories
        ensures d.name != name || d.owner != owner
      {
        var i :| 0 <= i < |st.categories| && st.categories[i] == d;
        assert cs[i] == d;
      }
    }
    if owner in UserIds(st) && |name| <= NameMaxLength
        && forall d :: d in st.categories ==> d.name != name || d.owner != owner {
      forall i, j | 0 <= i < |cs| && 0 <= j < |cs| && cs[i].id == cs[j].id
        ensures i == j
      {
        if i < |st.categories| { assert st.categories[i] in st.categories; }
        if j < |st.categories| { assert st.categories[j] in st.categories; }
      }
      forall i, j | 0 <= i < |cs| && 0 <= j < |cs| && cs[i].name == cs[j].name && cs[i].owner == cs[j].owner
        ensures i == j
      {
        if i < |st.categories| { assert st.categories[i] in st.categories; }
        if j < |st.categories| { assert st.categories[j] in st.categories; }
      }
      assert CategoryIds(st) <= CategoryIds(st') by {
        forall x | x in CategoryIds(st) ensures x in CategoryIds(st') {
          var d :| d in st.categories && d.id == x;
          assert d in cs;
        }
      }
      assert CategoriesValid(st');
      assert TasksValid(st');
    }
  }

  /** Two categories may share a name when their owners differ, but not
      under one owner. */
  lemma CategoryNamesUniquePerOwner(u1: User, u2: User, c1: Category, c2: Category)
    requires u1.id != u2.id && u1.username != u2.username
    requires u1.telegramId.Some? ==> u1.telegramId != u2.telegramId
    requires c1.id != c2.id && c1.name == c2.name
    requires c1.owner == u1.id && c2.owner == u2.id
    requires |c1.name| <= NameMaxLength && |c1.color| <= ColorMaxLength && |c2.color| <= ColorMaxLength
    ensures ValidStore(Store([u1, u2], [c1, c2], []))
    ensures !ValidStore(Store([u1, u2], [c1, c2.(owner := u1.id)], []))
  {
    var bad := Store([u1, u2], [c1, c2.(owner := u1.id)], []);
    assert bad.categories[0].name == bad.categories[1].name && bad.categories[0].owner == bad.categories[1].owner;
  }
}
