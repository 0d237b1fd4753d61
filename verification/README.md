# A Dafny model of the Telegram to-do bot and its backend

This project models, in Dafny, the decision logic of a to-do list system made
of a Telegram bot and a Django REST backend:

- **The bot's dialogs** (`Wizard`, `Bot`). The task viewer (`list` ↔ `detail`)
  and the add-task wizard (`title` → `description` → `due_date` → `confirm`)
  are a conversation state plus a scratch record, and one transition function
  handles a text message or a button press. It returns the next conversation,
  the store call the handler makes, and the notices it sends. The
  `/start`, `/help`, `/tasks` and `/add` commands are routed before the
  dialogs; `/tasks` and `/add` use reset-stack semantics. The window getters
  (task list, task detail, confirmation) compute the displayed fields, with the
  `—` placeholder rules.
- **Due-date parsing and rendering** (`DateTimes`). The parser is
  `strptime` with `%d.%m.%Y %H:%M` when the text holds a space and `%d.%m.%Y`
  otherwise. The renderers are `strftime('%d.%m.%Y %H:%M')` and `isoformat()`.
  Parsing what the confirmation window displays gives back the same datetime.
- **The bot's API client** (`ApiClient`). HTTP outcomes are mapped to a
  present or absent result, lists default to `[]`, and request payloads
  leave out empty optional fields.
- **The backend's records and constraints** (`Models`): users, categories
  and tasks in an in-memory store, with their uniqueness, foreign-key and
  width constraints, their orderings, and cascading user deletion.
- **The notification sweep and sender** (`Notifications`). The sweep picks
  every due, unsent, open task whose owner has a telegram id. The sender
  checks, in order: task not found, no telegram id, already sent, no bot
  token. Only an HTTP 200 marks the task as sent. Repeated sends of one task
  succeed at most once.
- **The task serializers and the endpoints the bot uses** (`Serializers`,
  `Views`):
  - validation, create and partial update, with category links restricted
    to the task owner's categories;
  - get-or-create registration by telegram id;
  - lookup by telegram id;
  - the list filters, where `user_id` takes precedence over `telegram_id`;
  - task creation on behalf of a telegram user.

The network, the database, Celery and the bot framework are replaced by
parameters. The outcome of an HTTP request is an input. A store call's
answer is an `Answer`: the client returned a result, returned none, or
raised out of the request. Fresh ids and the current time
are arguments.

The button wiring follows `bot/dialogs.py` as written:
- the description window has a Cancel button but no Back button;
- the detail window has a Back button but no Cancel button.

So Back moves only from `detail`, `due_date` and `confirm`, and Cancel closes
every window except `detail`.

Files: `wrappers.dfy` (Option), `text.dfy` (decimal rendering, join,
search, whitespace trimming as Python's `str.strip()`), `seqs.dfy` (filter,
insertion sort, string order, first index, projection), `datetimes.dfy`,
`wizard.dfy`, `bot.dfy`, `api_client.dfy`, `models.dfy`,
`notifications.dfy`, `serializers.dfy`, `views.dfy`.

## Model

| member | source | states |
|---|---|---|
| Wizard.GroupsAreExhaustive | bot/states.py:8-19 | every dialog state is in exactly one of the two groups; the viewer has exactly `list` and `detail`, the wizard exactly `title`, `description`, `due_date` and `confirm` |
| Wizard.StateNamesDistinct | bot/states.py:8-19 | distinct states have distinct `Group:state` names |
| Wizard.ListedTasksOpen | bot/dialogs.py:28-72 | when the list getter reports no tasks, no selection opens a detail window; a selected id opens a detail window exactly when it is the id of one of the `tasks_count` listed tasks, and the detail shows the first listed task with that id |
| Wizard.FormatTaskDate | bot/dialogs.py:42-48 | a parseable ISO stamp is shown as `DD.MM.YYYY HH:MM`; an absent or unparseable one is shown as `—`, and only then |
| Wizard.SelectTaskStep | bot/dialogs.py:51-59 | selecting an item stores its id as the selection and opens `detail`; no other scratch key changes, no call, no notice |
| Wizard.FirstWithId | bot/dialogs.py:71-72 | the detail lookup finds the first task whose id is the selected id, and finds none exactly when no task has it |
| Wizard.GetTaskDetailData | bot/dialogs.py:62-100 | the detail getter yields no task exactly when nothing is selected or no listed task has the selected id |
| Wizard.ShowTask | bot/dialogs.py:75-99 | the detail shows the task's title; an empty description, an empty category list and an absent or unparseable date each show as `—`; a parseable date shows as `DD.MM.YYYY HH:MM`; categories are joined with `, `; the status shows its label, with the raw value as a fallback |
| Wizard.TextInputSteps | bot/dialogs.py:190-219 | title and description text is stored verbatim and the wizard advances; skipping the description stores `""` and advances to `due_date` |
| Wizard.DueDateSteps | bot/dialogs.py:222-252 | text that parses stores the datetime and moves to `confirm`; otherwise state and scratch are unchanged and exactly one error notice is sent; skipping stores a null due date and moves to `confirm` |
| Wizard.BackEdges | bot/dialogs.py:178-178 | Back leaves only `detail` (to `list`), `due_date` (to `description`) and `confirm` (to `due_date`), keeping the scratch |
| Wizard.CancelEdges | bot/dialogs.py:299-363 | Cancel ends the dialog from `list` and from every wizard window, and from no other state (the detail window has no Cancel) |
| Wizard.CompleteStep | bot/dialogs.py:112-124 | completing asks the store to set the selected task to `completed`; when the client returns, it goes back to `list` whatever the result and only the notice depends on it; when the client raises, the window stays on `detail` and nothing is sent |
| Wizard.ConfirmStep | bot/dialogs.py:275-296 | confirming submits the staged title, description and due date (defaults `""`, `""`, none); when the client returns, the dialog ends whatever the result and only the notice depends on it; when the client raises, the window stays on `confirm` and nothing is sent |
| Wizard.OutcomeOnlyChangesNotice | bot/dialogs.py:112-124 | for every conversation and input, the call made does not depend on the answer; between two returned answers neither the next conversation nor the number of notices differs; a raised call leaves the conversation as it was and sends nothing |
| Wizard.HandlePreservesInv | bot/dialogs.py:190-296 | each wizard step holds the scratch keys its predecessors wrote, and the viewer holds only the selection; every transition keeps this |
| Wizard.ReachableCallsUseStagedValues | bot/dialogs.py:279-288 | in a reachable conversation, confirm submits exactly the staged values (the defaults never apply) and complete always names a task |
| Wizard.OrPlaceholderShowsText | bot/dialogs.py:266-271 | the confirmation never shows an empty field; it shows `—` exactly when the text is absent, empty or itself `—`, and any other shown text identifies the staged text |
| Wizard.GetConfirmData | bot/dialogs.py:255-272 | the confirmation shows the staged title, the description or `—`, and the staged due date in `DD.MM.YYYY HH:MM` or `—` when there is none |
| Wizard.TypedDueDateShownBack | bot/dialogs.py:229-237 | a due date typed in the display format moves the wizard to `confirm`, where it is shown back unchanged |
| DateTimes.ParseDueDate | bot/dialogs.py:229-234 | a parsed due date is a valid calendar datetime, and text without a space gives midnight |
| DateTimes.ParseFormatDisplay | bot/dialogs.py:229-234 | the display rendering of any datetime with a four-digit year parses back to that datetime |
| DateTimes.ParseFormatDate | bot/dialogs.py:229-234 | a date typed without a time parses to that date at midnight |
| Bot.RegistrationName | bot/handlers.py:22-27 | `/start` registers under the Telegram username, or `user_<id>` when there is none or it is empty |
| Bot.FallbackNamesDistinct | bot/handlers.py:24-24 | two users without a username get the same fallback name only if their ids are equal |
| Bot.StartRegisters | bot/handlers.py:19-42 | `/start` calls registration with the sender's id and name and keeps the conversation; when the client returns it sends exactly one message, the welcome exactly when a result came back; when the client raises it sends nothing |
| Bot.CommandsResetStack | bot/handlers.py:60-69 | `/tasks` and `/add` start `list` and `title` from any conversation, with empty scratch data and no store call |
| Bot.RunPreservesInv | bot/handlers.py:60-69 | any sequence of commands and dialog inputs keeps the scratch-key invariant |
| Bot.CreateRequestDueDate | bot/dialogs.py:282-288 | the create request carries `due_date` exactly when one was staged, in ISO form, and never carries category ids |
| Bot.BuyMilkScenario | bot/dialogs.py:190-296 | `/add`, a title, skip, skip, confirm: the backend is asked to create that title with an empty description and no due date, and the payload has exactly the keys `telegram_id`, `title` and `description`; the dialog ends when the client returns and stays on `confirm`, silent, when it raises |
| ApiClient.Request | bot/api_client.py:40-50 | a request yields the parsed body exactly when the status is 200 or 201 |
| ApiClient.AbsentOutcomes | bot/api_client.py:42-50 | a 404, any other non-success status and a client error all yield no result |
| ApiClient.ListOrEmpty | bot/api_client.py:72-79 | the list getters return `[]` whenever the result is absent or empty, and the result otherwise |
| ApiClient.CreateCategoryCall | bot/api_client.py:115-126 | creating a category is a POST to `categories/` without query parameters, whose body has exactly `user`, `name` and `color`, holding the given user and name and the given color or `#3498db` |
| ApiClient.CreateCategoryCallInjective | bot/api_client.py:115-126 | two category calls are equal exactly when they name the same user and name and the same effective color, so the default color equals an explicit `#3498db` |
| ApiClient.CreateTaskPayload | bot/api_client.py:81-104 | the payload always has `telegram_id`, `title` and `description`; `due_date` is present exactly when non-empty, and `category_ids` exactly when non-empty |
| Bot.CompleteRequestsPatch | bot/api_client.py:128-138 | completing the selected task sends a PATCH to that task's endpoint, and to no other task's, with the body exactly `{status: completed}`, whatever the answer |
| ApiClient.TaskEndpointInjective | bot/api_client.py:134-136 | different task ids address different endpoints |
| ApiClient.DeleteBypassesRequest | bot/api_client.py:140-148 | delete is a DELETE without a body to the same endpoint as a status update, and its success test is not the shared one: a successful delete is one the shared request would report as no result, and every status that yields a result is a failed delete |
| Models.StatusNameRoundTrip | backend/tasks/models.py:72-75 | each status choice reads back from its stored value, and only the three stored values denote a status |
| Models.NewTask | backend/tasks/models.py:82-120 | a new task is pending, unsent, without description, due date or categories, and stamped with its creation time |
| Models.NewCategoryValidIff | backend/tasks/models.py:31-61 | adding a new category with a fresh id keeps the store valid exactly when its owner exists, its name fits 100 characters and the owner has no category of that name |
| Models.CategoryNamesUniquePerOwner | backend/tasks/models.py:61-61 | two distinct owners may each hold a category of the same name, but one owner may not hold two |
| Models.SortCategories | backend/tasks/models.py:60-60 | categories come in name order and are a permutation of the input |
| Models.SortTasks | backend/tasks/models.py:125-125 | tasks come newest first and are a permutation of the input |
| Models.CategoriesOf | backend/tasks/tasks.py:40-42 | a task's categories are exactly the stored categories it links, in name order |
| Models.DeleteUserCascades | backend/tasks/models.py:46-51 | deleting a user leaves none of its categories or tasks; every other user and category is kept; every other task is kept with exactly its links minus the deleted user's categories, and no other task appears; the store constraints still hold |
| Models.DeleteUserKeepsUsersValid | backend/tasks/models.py:15-21 | deleting a user keeps user ids, usernames and non-null telegram ids unique |
| Models.DeleteUserKeepsTasksValid | backend/tasks/models.py:97-108 | after a cascade every task still has an existing owner and links only existing categories |
| Notifications.CheckDueTasks | backend/tasks/tasks.py:69-92 | the sweep queues a task exactly when it is due, unsent, pending or in progress and its owner has a telegram id; the count is the number queued; no task is queued twice |
| Notifications.ComposeMessage | backend/tasks/tasks.py:30-43 | the message always has the title; the description only when non-empty; the due date only when set; the category names only when the task has categories, and then the linked names in name order joined with `, ` |
| Notifications.MessageAgreesWithListItem | backend/tasks/tasks.py:30-43 | the message's title, description, due date and category text agree with the task's list form, the category text being the list form's category names joined with `, ` |
| Notifications.SendTaskNotification | backend/tasks/tasks.py:12-66 | "not found" exactly when no task has the id; only a delivered 200 changes the store; a message goes out exactly for the sent, failed and error results |
| Notifications.SendTaskNotificationSpec | backend/tasks/tasks.py:19-61 | the result is "no telegram id", "already sent" and "not configured" exactly in that order of checks; a message goes out exactly when the task exists, its owner has a telegram id, it is unsent and the token is set, and it carries the composed message to the owner's chat; sent, failed and error exactly follow a 200, another status and a request error; only that task's `notification_sent` may change, and only to true; the store stays valid |
| Notifications.SentLeavesSweep | backend/tasks/tasks.py:57-66 | after a success the task is never eligible again; after any other result every eligible task is still in the store unchanged |
| Notifications.ResendSucceedsAtMostOnce | backend/tasks/tasks.py:27-28 | however often one task is sent, at most one attempt succeeds and every later one reports "already sent" |
| Serializers.Validate | backend/tasks/serializers.py:35-51 | a payload is accepted exactly when the title is present (unless partial), holds no NUL, is not all whitespace and, trimmed, has at most 255 characters; the description holds no NUL; the status is a valid choice; the user is present (unless partial) and exists; and every category id holds no NUL and is not all whitespace; the accepted data is the payload's writable fields with title, description and category ids trimmed |
| Serializers.ReadOnlyFieldsIgnored | backend/tasks/serializers.py:51-51 | `id`, `created_at`, `updated_at` and `notification_sent` in a payload make no difference |
| Serializers.ScopedCategories | backend/tasks/serializers.py:57-57 | the scoped set is exactly the requested ids of categories owned by the given user |
| Serializers.CreateSpec | backend/tasks/serializers.py:53-59 | create appends one task with the trimmed title and description, the supplied status or the model defaults for absent fields; its categories are exactly the requested (trimmed) ids owned by its user (none when not requested); the store stays valid |
| Serializers.UpdateSpec | backend/tasks/serializers.py:61-70 | update writes only supplied fields, title and description trimmed, and stamps `updated_at`; categories stay when `category_ids` is absent and are replaced by the owner-scoped set of the trimmed ids when it is present, even empty; the store stays valid |
| Serializers.ListItemOmits | backend/tasks/serializers.py:73-82 | the list form does not depend on `updated_at`, `notification_sent` or the owner; it shows the task's id, title, description, status and dates, and its categories are exactly the linked stored categories, in name order |
| Views.RegisterTelegram | backend/tasks/views.py:21-49 | a falsy telegram id gives 400 and no change; a known one gives 200 with that user and no change; an unknown one is created with 201 exactly when the given or `telegram_<id>` name, trimmed of surrounding whitespace, is available, and otherwise gives 400 with no change; a 201 appends exactly the new user under the trimmed name |
| Views.RegisterTrimsUsername | backend/tasks/views.py:39-48 | registering under a name with surrounding whitespace, for an unknown telegram id, does exactly what registering under the trimmed name does |
| Text.TrimFixes | backend/tasks/serializers.py:38-42 | trimming leaves a text unchanged exactly when it is empty or neither starts nor ends with whitespace, and trimming twice is trimming once |
| Views.RegisterKeepsValid | backend/tasks/views.py:42-48 | registration keeps the store's constraints |
| Views.RegisterTelegramIdempotent | backend/tasks/views.py:34-36 | registering a registered telegram id again, under any name, returns the same user with 200 and changes nothing |
| Views.UserByTelegram | backend/tasks/views.py:51-62 | a missing parameter gives 400, an unknown id 404, and otherwise the user with that telegram id |
| Views.CategoryQuery | backend/tasks/views.py:70-81 | the category list is exactly the categories matching `user_id`, or `telegram_id` when there is no `user_id`, in name order |
| Views.TaskQuery | backend/tasks/views.py:93-108 | the task list is exactly the tasks matching the owner filter and, when given, the status, newest first |
| Views.UserIdTakesPrecedence | backend/tasks/views.py:76-79 | with a `user_id`, the `telegram_id` parameter does not affect either list |
| Views.TasksByTelegram | backend/tasks/views.py:110-125 | a missing parameter gives 400; otherwise the list items are exactly those of the tasks whose owner has that telegram id, newest first |
| Views.CreateForTelegram | backend/tasks/views.py:127-146 | a falsy id gives 400 and an unknown one 404, both without change; a 201 appends exactly the returned task, owned by the user with that telegram id |
| Views.CreateForTelegramForcesUser | backend/tasks/views.py:139-140 | the `user` supplied in the body makes no difference |
| Views.CreateForTelegramSpec | backend/tasks/views.py:139-146 | for a known user, the task is created exactly when the title is present, holds no NUL, is not blank and fits 255 characters once trimmed, the description holds no NUL, the status is a valid choice and every category id holds no NUL and is not blank; otherwise it is rejected with 400; its categories belong to its owner; the store stays valid |

## Left out

- Transports are not modelled: aiohttp sessions, `requests.post`, the Telegram Bot API, the ORM and Celery's `.delay`. An HTTP result is an input, and the database is three sequences. Enqueueing is appending an id to the sweep's job list.
- Concurrency is not modelled. Overlapping sweeps and senders only read, check and then write, so at-most-once delivery is proved for sequential attempts only.
- `bot/main.py`, `backend/tasks/admin.py`, `backend/tasks/urls.py` and the settings are not part of this model. `backend/tasks/fields.py` is not part of this model either: ULIDs are opaque strings, and a fresh one is an argument.
- Timezones, offsets and general ISO-8601 parsing are not modelled. `fromisoformat` is abstracted as a stamp that is absent, unparseable or a datetime. Backend timestamps are integers.
- Message wording, emoji, HTML and widget rendering (scroll paging, button texts) are not modelled.
- Notifications.ComposeMessage: the due date is carried as the stored timestamp, not rendered with `strftime`.
- Notifications.CheckDueTasks: the sweep visits tasks in store order; the newest-first order of the query is not stated, only which tasks are queued and how many.
- DateTimes.ParseDueDate: `strptime` also accepts non-ASCII Unicode digits; only ASCII digits are modelled.
- DateTimes.ParseFormatDisplay: `%Y` is rendered unpadded, so the round trip is stated for years from 1000 on.
- Views.RegisterTelegram: a non-numeric `telegram_id` makes the ORM lookup raise `ValueError`, which becomes a server error; only integer ids are modelled. The username validator's `\w` also admits non-ASCII letters; only the ASCII part is modelled. The range of the 64-bit `telegram_id` column is not checked.
- Views.UserByTelegram: a non-numeric `telegram_id` query parameter makes the ORM lookup raise `ValueError`, which becomes a server error; the parameter is modelled as an integer.
- Views.CategoryQuery: a non-numeric `telegram_id` query parameter (used when there is no `user_id`) makes the ORM lookup raise `ValueError`, which becomes a server error; it is modelled as an integer.
- Views.TaskQuery: a non-numeric `telegram_id` query parameter (used when there is no `user_id`) makes the ORM lookup raise `ValueError`, which becomes a server error; it is modelled as an integer.
- Views.TasksByTelegram: a non-numeric `telegram_id` query parameter makes the ORM lookup raise `ValueError`, which becomes a server error; it is modelled as an integer.
- Views.CreateForTelegram: a non-numeric `telegram_id` in the body makes the ORM lookup raise `ValueError`, which becomes a server error; it is modelled as an integer.
- Serializers.Validate: type coercion errors (a non-string title, a malformed date, a non-numeric id, a non-list `category_ids`) and explicit nulls are not modelled.
- Models.SortCategories: names are ordered by Unicode code point (`Seqs.StrLe`); a database whose collation orders text otherwise (case-insensitive or locale-aware) would list categories differently. SQLite's default `BINARY` collation agrees with this order.
- Views.CategoryQuery: the name order is code-point order, as for `Models.SortCategories`.
- ApiClient.DeleteTaskResult: a timeout raises out of `delete_task` as well; only the returned outcomes are modelled.
- ApiClient.ListOrEmpty: a timeout or an undecodable JSON body raises out of the list getters; only the returned outcomes are modelled.
- The full `TaskSerializer` and `UserSerializer` output (email, join date) is not modelled; only the list form is.
- The generic CRUD routes of the view sets and `health_check` are not modelled, apart from the queryset filters and the serializer create and update they use.
- The `/help` text and the other fixed messages are not modelled; each is a notice tag.
