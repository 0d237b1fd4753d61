/** The task serializers (backend/tasks/serializers.py): which request
    fields are written, how a payload is validated, and how a task is
    created or updated from it, with its category links scoped to the
    task's owner. */
module Serializers {
  import opened Wrappers
  import opened Text
  import opened Seqs
  import opened Models

  /** A task request body. `None` means the key is absent. The last four
      fields are read-only: a client may send them, and they are ignored. */
  datatype TaskPayload = TaskPayload(
    title: Option<string>,
    description: Option<string>,
    status: Option<string>,
    dueDate: Option<Option<int>>,
    user: Option<Id>,
    categoryIds: Option<seq<Id>>,
    id: Option<Id>,
    createdAt: Option<int>,
    updatedAt: Option<int>,
    notificationSent: Option<bool>)

  /** The writable part of a payload after validation. */
  datatype TaskData = TaskData(
    title: Option<string>,
    description: Option<string>,
    status: Option<Status>,
    dueDate: Option<Option<int>>,
    user: Option<Id>,
    categoryIds: Option<seq<Id>>)

  datatype FieldError =
    | TitleRequired | TitleBlank | TitleTooLong | TitleNullCharacter
    | DescriptionNullCharacter
    | BadStatus
    | UserRequired | UnknownUser
    | CategoryIdBlank | CategoryIdNullCharacter

  datatype Checked = Valid(data: TaskData) | Invalid(errors: set<FieldError>)

  const NulChar: char := '\0'

  /** What a DRF `CharField` makes of a submitted text: it is trimmed of
      surrounding whitespace; a text that is then empty is refused unless
      blank text is allowed (and is otherwise `""`); a text holding a NUL
      character is refused. */
  function CleanText(s: string, allowBlank: bool): (r: Option<string>)
    ensures r.Some? ==> r.value == Trim(s) && (allowBlank || r.value != "")
    ensures r.None? <==> NulChar in s || (!allowBlank && forall k :: 0 <= k < |s| ==> IsSpace(s[k]))
  {
    if NulChar in s || (!allowBlank && Trim(s) == "") then None else Some(Trim(s))
  }

  /** An optional text with its surrounding whitespace trimmed. */
  function TrimField(f: Option<string>): (r: Option<string>)
    ensures r.None? <==> f.None?
    ensures f.Some? ==> r.value == Trim(f.value)
  {
    if f.Some? then Some(Trim(f.value)) else None
  }

  /** The elements of a `category_ids` list, each trimmed. */
  function TrimAll(ids: seq<Id>): (r: seq<Id>)
    ensures |r| == |ids|
    ensures forall i :: 0 <= i < |ids| ==> r[i] == Trim(ids[i])
  {
    if |ids| == 0 then [] else [Trim(ids[0])] + TrimAll(ids[1..])
  }

  /** `title`: a `CharField(max_length=255)`; a blank title gets only the
      blank error, other titles are checked for length and NUL characters
      after trimming. */
  function TitleErrors(title: Option<string>, partial: bool): (e: set<FieldError>)
    ensures e == {} <==>
      (title.Some? || partial) && (title.Some? ==> CleanText(title.value, false).Some? && |Trim(title.value)| <= TitleMaxLength)
  {
    match title
    case None => if partial then {} else {TitleRequired}
    case Some(s) =>
      if Trim(s) == "" then {TitleBlank}
      else
        (if |Trim(s)| > TitleMaxLength then {TitleTooLong} else {})
        + (if NulChar in s then {TitleNullCharacter} else {})
  }

  /** `description`: a `CharField` that admits blank text. */
  function DescriptionErrors(description: Option<string>): (e: set<FieldError>)
    ensures e == {} <==> (description.Some? ==> CleanText(description.value, true).Some?)
  {
    if description.Some? && CleanText(description.value, true).None? then {DescriptionNullCharacter} else {}
  }

  function StatusErrors(status: Option<string>): (e: set<FieldError>)
    ensures e == {} <==> (status.Some? ==> status.value in {"pending", "in_progress", "completed"})
  {
    StatusNameRoundTrip(Pending, if status.Some? then status.value else "");
    if status.Some? && ParseStatus(status.value).None? then {BadStatus} else {}
  }

  function UserErrors(st: Store, user: Option<Id>, partial: bool): (e: set<FieldError>)
    ensures e == {} <==> (user.Some? || partial) && (user.Some? ==> user.value in UserIds(st))
  {
    match user
    case None => if partial then {} else {UserRequired}
    case Some(u) => if u in UserIds(st) then {} else {UnknownUser}
  }

  /** `category_ids`: a list whose elements are `CharField`s that refuse
      blank text. */
  function CategoryIdErrors(ids: Option<seq<Id>>): (e: set<FieldError>)
    ensures e == {} <==> (ids.Some? ==> forall i :: 0 <= i < |ids.value| ==> CleanText(ids.value[i], false).Some?)
  {
    match ids
    case None => {}
    case Some(xs) =>
      (if exists i :: 0 <= i < |xs| && Trim(xs[i]) == "" then {CategoryIdBlank} else {})
      + (if exists i :: 0 <= i < |xs| && NulChar in xs[i] then {CategoryIdNullCharacter} else {})
  }

  /** Field validation of a task payload; `partial` leaves absent fields
      unchecked. All errors are collected. Text fields are accepted in
      their trimmed form. */
  function Validate(st: Store, p: TaskPayload, partial: bool): (r: Checked)
    ensures r.Valid? <==>
      && (p.title.Some? || partial)
      && (p.title.Some? ==> CleanText(p.title.value, false).Some? && |Trim(p.title.value)| <= TitleMaxLength)
      && (p.description.Some? ==> CleanText(p.description.value, true).Some?)
      && (p.status.Some? ==> p.status.value in {"pending", "in_progress", "completed"})
      && (p.user.Some? || partial)
      && (p.user.Some? ==> p.user.value in UserIds(st))
      && (p.categoryIds.Some? ==> forall i :: 0 <= i < |p.categoryIds.value| ==> CleanText(p.categoryIds.value[i], false).Some?)
    ensures r.Valid? ==>
      && r.data.title == TrimField(p.title) && r.data.description == TrimField(p.description)
      && r.data.dueDate == p.dueDate && r.data.user == p.user
      && (r.data.categoryIds.None? <==> p.categoryIds.None?)
      && (p.categoryIds.Some? ==> r.data.categoryIds.value == TrimAll(p.categoryIds.value))
      && (p.status.None? <==> r.data.status.None?)
      && (p.status.Some? ==> StatusName(r.data.status.value) == p.status.value)
    ensures r.Invalid? ==> r.errors != {}
  {
    var errors := TitleErrors(p.title, partial) + DescriptionErrors(p.description) + StatusErrors(p.status)
      + UserErrors(st, p.user, partial) + CategoryIdErrors(p.categoryIds);
    StatusNameRoundTrip(Pending, if p.status.Some? then p.status.value else "");
    if errors == {} then
      Valid(TaskData(
        TrimField(p.title), TrimField(p.description),
        if p.status.Some? then ParseStatus(p.status.value) else None,
        p.dueDate, p.user,
        if p.categoryIds.Some? then Some(TrimAll(p.categoryIds.value)) else None))
    else
      Invalid(errors)
  }

  /** Validation never looks at the read-only fields. */
  lemma ReadOnlyFieldsIgnored(st: Store, p: TaskPayload, q: TaskPayload, partial: bool)
    requires p.(id := q.id, createdAt := q.createdAt, updatedAt := q.updatedAt, notificationSent := q.notificationSent) == q
    ensures Validate(st, p, partial) == Validate(st, q, partial)
  {
  }

  /** `Category.objects.filter(id__in=ids, user=owner)`. */
  function ScopedCategories(st: Store, ids: seq<Id>, owner: Id): (r: set<Id>)
    ensures forall cid :: cid in r <==> cid in ids && exists c :: c in st.categories && c.id == cid && c.owner == owner
  {
    set c | c in st.categories && c.id in ids && c.owner == owner :: c.id
  }

  /** A new task from validated data, with the model's defaults for the
      fields the payload left out. */
  function Create(st: Store, d: TaskData, newId: Id, now: int): (r: Store)
    requires d.title.Some? && d.user.Some?
  {
    var ids := d.categoryIds.GetOr([]);
    var base := NewTask(newId, d.title.value, d.user.value, now);
    var t := base.(
      description := d.description.GetOr(""),
      status := d.status.GetOr(Pending),
      dueDate := d.dueDate.GetOr(None),
      categories := if ids != [] then ScopedCategories(st, ids, d.user.value) else {});
    st.(tasks := st.tasks + [t])
  }

  /** Creating a task appends exactly one task and changes nothing else; its
      categories are exactly the requested ones owned by its user (foreign
      or unknown ids are dropped, none requested means none linked); the
      defaults fill the absent fields; and a valid store stays valid. */
  lemma CreateSpec(st: Store, p: TaskPayload, newId: Id, now: int)
    requires ValidStore(st) && newId !in TaskIds(st)
    requires Validate(st, p, false).Valid?
    ensures var d := Validate(st, p, false).data;
      var r := Create(st, d, newId, now);
      var t := r.tasks[|st.tasks|];
      && r.users == st.users && r.categories == st.categories
      && r.tasks[..|st.tasks|] == st.tasks && |r.tasks| == |st.tasks| + 1
      && t.id == newId && t.title == Trim(p.title.value) && t.owner == p.user.value
      && t.description == (if p.description.Some? then Trim(p.description.value) else "")
      && t.dueDate == p.dueDate.GetOr(None)
      && (p.status.None? ==> t.status == Pending)
      && (p.status.Some? ==> StatusName(t.status) == p.status.value)
      && !t.notificationSent && t.createdAt == now && t.updatedAt == now
      && (forall cid :: cid in t.categories <==>
            p.categoryIds.Some? && cid in TrimAll(p.categoryIds.value)
            && exists c :: c in st.categories && c.id == cid && c.owner == t.owner)
      && ValidStore(r)
  {
    var d := Validate(st, p, false).data;
    assert d.title == Some(Trim(p.title.value)) && d.user == p.user;
    CreateKeepsValid(st, d, newId, now);
  }

  /** Appending a task built from data with an existing user and a title
      that fits keeps the store valid. */
  lemma CreateKeepsValid(st: Store, d: TaskData, newId: Id, now: int)
    requires ValidStore(st) && newId !in TaskIds(st)
    requires d.title.Some? && |d.title.value| <= TitleMaxLength
    requires d.user.Some? && d.user.value in UserIds(st)
    ensures ValidStore(Create(st, d, newId, now))
  {
    var r := Create(st, d, newId, now);
    var t := r.tasks[|st.tasks|];
    assert UserIds(r) == UserIds(st) && CategoryIds(r) == CategoryIds(st);
    forall cid | cid in t.categories
      ensures cid in CategoryIds(st)
    {
      var c :| c in st.categories && c.id == cid && c.owner == t.owner;
    }
    forall i, j | 0 <= i < |r.tasks| && 0 <= j < |r.tasks| && r.tasks[i].id == r.tasks[j].id
      ensures i == j
    {
      if i < |st.tasks| { assert st.tasks[i] in st.tasks; }
      if j < |st.tasks| { assert st.tasks[j] in st.tasks; }
    }
  }

  /** `update`: every supplied attribute is written, the save stamps
      `updated_at`, and the category links are replaced by the requested
      ones owned by the (possibly new) user exactly when `category_ids` was
      supplied, even as an empty list. */
  function Update(st: Store, k: nat, d: TaskData, now: int): (r: Store)
    requires k < |st.tasks|
    ensures r.users == st.users && r.categories == st.categories && |r.tasks| == |st.tasks|
    ensures forall i :: 0 <= i < |st.tasks| && i != k ==> r.tasks[i] == st.tasks[i]
  {
    var was := st.tasks[k];
    var t := was.(
      title := d.title.GetOr(was.title),
      description := d.description.GetOr(was.description),
      status := d.status.GetOr(was.status),
      dueDate := d.dueDate.GetOr(was.dueDate),
      owner := d.user.GetOr(was.owner),
      updatedAt := now);
    var t' := if d.categoryIds.Some? then t.(categories := ScopedCategories(st, d.categoryIds.value, t.owner)) else t;
    st.(tasks := st.tasks[k := t'])
  }

  /** A partial update changes only what the payload supplies: an absent
      field keeps its value, `id`, `created_at` and `notification_sent`
      never change, `updated_at` becomes the time of the save, absent
      `category_ids` keep the links, and present ones (even empty) replace
      them with the owner-scoped set. A valid store stays valid. */
  lemma UpdateSpec(st: Store, k: nat, p: TaskPayload, now: int)
    requires ValidStore(st) && k < |st.tasks|
    requires Validate(st, p, true).Valid?
    ensures var r := Update(st, k, Validate(st, p, true).data, now);
      var t0 := st.tasks[k];
      var t := r.tasks[k];
      && t.id == t0.id && t.createdAt == t0.createdAt && t.notificationSent == t0.notificationSent
      && t.updatedAt == now
      && t.title == (if p.title.Some? then Trim(p.title.value) else t0.title)
      && t.description == (if p.description.Some? then Trim(p.description.value) else t0.description)
      && t.dueDate == p.dueDate.GetOr(t0.dueDate)
      && t.owner == p.user.GetOr(t0.owner)
      && (p.status.None? ==> t.status == t0.status)
      && (p.status.Some? ==> StatusName(t.status) == p.status.value)
      && (p.categoryIds.None? ==> t.categories == t0.categories)
      && (p.categoryIds.Some? ==> forall cid :: cid in t.categories <==>
            cid in TrimAll(p.categoryIds.value) && exists c :: c in st.categories && c.id == cid && c.owner == t.owner)
      && ValidStore(r)
  {
    var d := Validate(st, p, true).data;
    assert (d.title.Some? ==> |d.title.value| <= TitleMaxLength) && d.user == p.user;
    UpdateKeepsValid(st, k, d, now);
  }

  /** Updating with data whose user (if any) exists and whose title (if
      any) fits keeps the store valid. */
  lemma UpdateKeepsValid(st: Store, k: nat, d: TaskData, now: int)
    requires ValidStore(st) && k < |st.tasks|
    requires d.title.Some? ==> |d.title.value| <= TitleMaxLength
    requires d.user.Some? ==> d.user.value in UserIds(st)
    ensures ValidStore(Update(st, k, d, now))
  {
    var r := Update(st, k, d, now);
    var t := r.tasks[k];
    assert st.tasks[k] in st.tasks;
    assert UserIds(r) == UserIds(st) && CategoryIds(r) == CategoryIds(st);
    forall cid | cid in t.categories
      ensures cid in CategoryIds(st)
    {
      if d.categoryIds.Some? {
        var c :| c in st.categories && c.id == cid && c.owner == t.owner;
      }
    }
    forall u | u in r.tasks
      ensures u.owner in UserIds(r) && u.categories <= CategoryIds(r) && |u.title| <= TitleMaxLength
    {
      var i :| 0 <= i < |r.tasks| && r.tasks[i] == u;
      assert st.tasks[i] in st.tasks;
    }
  }

  // ---------------------------------------------------------------------
  // List rendering

  datatype CategoryItem = CategoryItem(id: Id, name: string, color: string)

  /** The list serialisation: no `updated_at`, no `notification_sent`, no
      `user`. */
  datatype TaskItem = TaskItem(
    id: Id, title: string, description: string, status: Status,
    dueDate: Option<int>, categories: seq<CategoryItem>, createdAt: int)

  function CategoryItems(cs: seq<Category>): (r: seq<CategoryItem>)
    ensures |r| == |cs|
    ensures forall i :: 0 <= i < |cs| ==> r[i] == CategoryItem(cs[i].id, cs[i].name, cs[i].color)
  {
    if |cs| == 0 then [] else [CategoryItem(cs[0].id, cs[0].name, cs[0].color)] + CategoryItems(cs[1..])
  }

  function ListItem(st: Store, t: Task): TaskItem {
    TaskItem(t.id, t.title, t.description, t.status, t.dueDate, CategoryItems(CategoriesOf(st, t)), t.createdAt)
  }

  /** Rendering keeps the categories, their order and nothing else. */
  lemma CategoryItemsMembers(cs: seq<Category>)
    ensures var items := CategoryItems(cs);
      && (forall i :: 0 <= i < |items| ==> cs[i] in cs && items[i] == CategoryItem(cs[i].id, cs[i].name, cs[i].color))
      && (forall c :: c in cs ==> CategoryItem(c.id, c.name, c.color) in items)
  {
    var items := CategoryItems(cs);
    forall c | c in cs
      ensures CategoryItem(c.id, c.name, c.color) in items
    {
      var i :| 0 <= i < |cs| && cs[i] == c;
      assert items[i] == CategoryItem(c.id, c.name, c.color);
    }
  }

  /** The list item does not depend on the omitted fields: tasks that differ
      only in `updated_at`, `notification_sent` or owner render alike. It
      shows the task's own title, description, status and dates, and its
      categories are exactly the stored categories the task links, in name
      order. */
  lemma ListItemOmits(st: Store, t: Task, updatedAt: int, sent: bool, owner: Id)
    ensures ListItem(st, t) == ListItem(st, t.(updatedAt := updatedAt, notificationSent := sent, owner := owner))
    ensures var item := ListItem(st, t);
      && item.id == t.id && item.title == t.title && item.description == t.description && item.status == t.status
      && item.dueDate == t.dueDate && item.createdAt == t.createdAt
      && (forall i :: 0 <= i < |item.categories| ==>
            exists c :: c in st.categories && c.id in t.categories && item.categories[i] == CategoryItem(c.id, c.name, c.color))
      && (forall c :: c in st.categories && c.id in t.categories ==> CategoryItem(c.id, c.name, c.color) in item.categories)
      && (forall i, j :: 0 <= i < j < |item.categories| ==> StrLe(item.categories[i].name, item.categories[j].name))
  {
    var t' := t.(updatedAt := updatedAt, notificationSent := sent, owner := owner);
    assert CategoriesOf(st, t) == CategoriesOf(st, t');
    var cs := CategoriesOf(st, t);
    CategoryItemsMembers(cs);
    var items := CategoryItems(cs);
    assert ListItem(st, t).categories == items;
    forall i | 0 <= i < |items|
      ensures exists c :: c in st.categories && c.id in t.categories && items[i] == CategoryItem(c.id, c.name, c.color)
    {
      assert cs[i] in cs;
    }
  }
}
