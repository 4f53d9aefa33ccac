# bottgdelay, modelled in Dafny

bottgdelay is a Telegram bot for a small music label. Founders, A&R managers, designers and SMM specialists use it to register artists and releases. Each new release gets a standard set of tasks with deadlines before the release date. Users finish tasks with a file and a comment or refuse them, SMM specialists file daily reports, and scheduled jobs mark overdue tasks, warn about tomorrow's deadlines and ask managers about unsigned contracts.

The repository holds three versions of the bot:

- the `bot/` package (PostgreSQL through asyncpg, aiogram routers and middlewares);
- `bot.py`, the single-file bot that came before it;
- `main.py`, a variant on SQLAlchemy with its own tables, offsets and jobs.

This project models the logic of all three. It keeps their differences rather than reconciling them.

The model has one module per source file:

| module | file | models |
|---|---|---|
| `Config` | `config.dfy` | `bot/config.py`: the `ADMIN_IDS` list and the role maps |
| `Keyboards` | `keyboards.dfy` | `bot/keyboards/builders.py`: the role menus as label rows |
| `Auth` | `auth.dfy` | `bot/middlewares/auth.py`: the pass/deny decisions |
| `Store` | `store.dfy` | `bot/database.py`: the tables as sequences in insertion order, the queries as functions, the writes as methods of the class `Database` |
| `Forms` | `forms.dfy` | the aiogram form state (the step enumeration of `bot/states.py` and the collected answers), as the class `FsmContext` |
| `Users`, `Artists`, `Releases`, `Tasks`, `Reports`, `Common` | one file each | the handlers of `bot/handlers/` |
| `Jobs` | `jobs.dfy` | `bot/jobs.py`: the scheduled sweeps and the onboarding callback |
| `Monolith` | `monolith.dfy` | what `bot.py` does differently from the package |
| `Orm` | `orm.dfy` | `main.py`, on its own tables (`OrmStore`) and form (`OrmForm`) |

Some modules support the rest:

- `Text`: the Python string operations the code uses.
- `Dates`: `datetime.date`, `strptime` and `strftime` for the formats the code uses.
- `Ordering`: SQL `ORDER BY`, `WHERE` and `LIMIT`/`OFFSET` on text keys.
- `Tokens`: the `<head>_<id>` callback data and how it is read back.
- `Notices`: the messages sent to other users.
- `Wrappers`: `Option`.

Every handler and job is one method. It works on the form and the tables it changes, and it returns the notices it sends. "Today" and "now" are parameters.

Where `bot.py` runs the same statements as the package, the package's model stands for both. This covers the store methods, the forms, the auth middlewares, the task handlers, the three jobs and `onb_act`. `Monolith` models what actually differs:

- the release task table, which has no album tasks;
- deadlines with no clamp to today;
- the menus and the routes they reach;
- the SMM handlers, which have no role gate and no length cut.

Where the description of the system and its code disagree, the model follows the code:

- The task titles, descriptions and offsets of the generators are the code's.
- The overdue sweep of `bot/jobs.py` re-notifies already-overdue tasks and overwrites a refused task's status. A description of the sweep as idempotent does not hold for it, and the model states what the code does (`Jobs.SweepRenotifies`, `Jobs.SweepEffect`).
- The clamp of deadlines to today exists only in `bot/handlers/releases.py`.

## Model

| member | source | states |
|---|---|---|
| Config.ParseAll | bot/config.py:14 | every piece is read as an integer, in order and one for one; any piece that is not an integer makes the whole list fail, as the `ValueError` at import does |
| Config.AdminIdsRoundTrip | bot/config.py:13-14 | the comma-separated text of any list of ids reads back as that list, the empty list included (the empty variable gives `[]`) |
| Config.MapOfExact | bot/config.py:24-30 | a dict display with distinct keys holds every one of its pairs and no other key, so it has as many entries as pairs |
| Config.RoleItemsDistinct | bot/config.py:24-29 | the four role labels differ from each other and so do the four codes |
| Config.RolesInverse | bot/config.py:24-30 | `ROLES_MAP` maps four labels to founder, anr, designer and smm; `ROLES_DISPLAY` has four entries and is its exact inverse in both directions |
| Keyboards.CancelKb | bot/keyboards/builders.py:4-6 | the cancel keyboard is one row holding the single button "🔙 Отмена" |
| Keyboards.MainKbShape | bot/keyboards/builders.py:8-32 | the founder menu is four rows of two, anr three rows of two, designer a row of two and a row of one, smm two rows of two; the menu is empty exactly for a role outside those four |
| Keyboards.MainLabels | bot/keyboards/builders.py:13-30 | the labels of each role's menu, row by row, and none for any other role |
| Keyboards.UnroutedFounder | bot/keyboards/builders.py:13-19 | every founder button is answered by some handler |
| Keyboards.UnroutedAnr | bot/keyboards/builders.py:20-25 | every anr button is answered by some handler |
| Keyboards.UnroutedDesigner | bot/keyboards/builders.py:26-27 | the designer's "🕰 Просроченные" button is the only one no handler answers |
| Keyboards.UnroutedSmm | bot/keyboards/builders.py:28-30 | the smm's two report buttons are exactly the ones no handler answers |
| Keyboards.SmmReportLabelsUnrouted | bot/handlers/reports.py:14 | the report routes listen for other texts than the smm menu's "📝 Написать отчет" and "📅 Мои отчеты" |
| Keyboards.DeletionNotOnMenu | bot/keyboards/builders.py:12-30 | no role's menu offers "🗑 Удалить юзера" or "🗑 Удалить релиз", though both texts are routed |
| Keyboards.UserManagementFounderOnly | bot/keyboards/builders.py:13-15 | "👥 Пользователи" and "➕ Добавить юзера" are on a role's menu exactly when the role is founder |
| Auth.MessageDecision | bot/middlewares/auth.py:16-24 | "/start" and events without a sender always pass; a message is denied exactly when it is not "/start", has a sender, and the sender has no row |
| Auth.CallbackDecision | bot/middlewares/auth.py:36-41 | a callback is denied exactly when it has a sender without a row; there is no "/start" exemption |
| Auth.PassedSenderRegistered | bot/middlewares/auth.py:16-41 | every passed message other than "/start", and every passed callback, with a sender comes from a registered user |
| Auth.StartIsTheOnlyExemption | bot/middlewares/auth.py:16-41 | an unknown sender's message passes exactly when its text is "/start", and an unknown sender's callback is always denied |
| Common.RoleName | bot/handlers/common.py:31 | a role code's display label, or the code itself when it has no label |
| Common.Cancel | bot/handlers/common.py:10-18 | from any step, the form ends empty and idle; the reply keyboard is the sender's role menu when the sender has a row, and removed otherwise |
| Common.Start | bot/handlers/common.py:20-32 | an unknown sender is refused and nothing is written; a known one is greeted with name, role label and menu, the username is stored only when Telegram gives one, name and role are kept, and no other user's row changes |
| Store.Row | bot/database.py:181-189 | the row `create_task` inserts carries the given id, status pending, no file, no comment and no parent task |
| Store.ColumnFlag | bot/database.py:66-70 | a column name denotes the flag whose column it is, and any other text denotes none |
| Store.SetFlag | bot/database.py:274-279 | one flag column gets the new value; every other flag, the id, name, manager and first release date are kept |
| Store.FindUser | bot/database.py:124-129 | the row found carries the id asked for, and nothing is found exactly when no row carries it |
| Store.FindUserUnique | bot/database.py:47 | with `telegram_id` the primary key, looking up a row's id finds that row |
| Store.Upsert | bot/database.py:131-139 | afterwards exactly one row has the id and it carries the given name, role and username; every other id reads back as before |
| Store.RemoveUser | bot/database.py:141-146 | afterwards no row has the id, ids stay unique, and every other id reads back as before |
| Store.SeedOneStep | bot/database.py:117-122 | one seeding step leaves an existing row alone, inserts a founder row otherwise, keeps ids unique and changes no other id's row |
| Store.SeededRegistersAdmins | bot/database.py:112-122 | after seeding every configured admin has a row; a row that existed is untouched; an admin without one gets name "Founder", role founder and no username; no other id changes |
| Store.AllUsers | bot/database.py:148-153 | all users, a permutation of the table, ordered by role |
| Store.Designer | bot/database.py:324-326 | some user whose role is designer, and none exactly when no user is a designer |
| Store.FindTask | bot/database.py:205-210 | the task found carries the id asked for, and nothing is found exactly when no row carries it |
| Store.FindArtist | bot/database.py:285-287 | the artist found carries the id asked for, and nothing is found exactly when no row carries it |
| Store.ArtistByName | bot/database.py:281-283 | the id of some artist with exactly that name, and none exactly when no artist has that name |
| Store.AllArtists | bot/database.py:289-291 | all artists, a permutation of the table, ordered by name |
| Store.UnsignedArtists | bot/database.py:270-272 | exactly the artists whose contract flag is 0 |
| Store.ArtistsByFlag | bot/database.py:307-311 | exactly the artists whose given flag column has the given value |
| Store.WithArtistFlag | bot/database.py:274-279 | the artist of that id gets one column set and every other row is unchanged |
| Store.StatusUpdated | bot/database.py:212-220 | the status is always written; file and comment are both overwritten (possibly with nothing) when either is truthy, and both kept otherwise; no other column changes |
| Store.WithStatus | bot/database.py:212-220 | the task of that id is updated as above and every other row is unchanged |
| Store.ActiveTasks | bot/database.py:191-196 | exactly the tasks whose status is neither done nor rejected, as a multiset, ordered by deadline |
| Store.ActiveTasksOf | bot/database.py:198-203 | exactly the open tasks assigned to the user, as a multiset, ordered by deadline |
| Store.History | bot/database.py:328-334 | the twenty done tasks (of the given assignee when one is given) with the latest deadlines, or all of them when there are fewer, drawn from the done tasks as a multiset, latest deadline first; no done task left out has a later deadline than one shown |
| Store.DoneTasks | bot/database.py:330 | exactly the done tasks of the assignee, of everyone when none is given |
| Store.ReleaseScope | bot/database.py:228-242 | a founder sees every release; anyone else exactly their own releases |
| Store.ReleasesPage | bot/database.py:222-244 | `total` is the number of releases in the user's scope; the rows come from the scope, at most five and exactly as many as remain past offset page*5, ordered by release date descending |
| Store.ScopeByDate | bot/database.py:234 | the releases of the user's scope as a multiset, latest release date first: the order the pages cut |
| Store.PagesPrefix | bot/database.py:226-242 | pages 0 to k-1 one after the other are the first min(5k, total) releases of the scope in date order |
| Store.PagesCover | bot/database.py:226-242 | once 5k reaches the total, pages 0 to k-1 hold every release of the scope exactly once, as a multiset |
| Store.PagesArePaged | bot/database.py:226-242 | the rows served by pages 0 to k-1 are the pages 0 to k-1 of the scope's date order |
| Store.PagesOrdered | bot/database.py:234-241 | no row of a page has a later release date than any row of the page before it |
| Store.LastReleases | bot/database.py:336-338 | the ten releases with the latest dates, or all of them when there are fewer, drawn from the table as a multiset, latest date first; no release left out has a later date than one shown |
| Store.ReleasesOn | bot/database.py:313-317 | exactly the releases whose date text equals the target date text |
| Store.PitchingTask | bot/database.py:319-322 | some task of the release whose title starts with "📝 Питчинг", and none exactly when there is no such task |
| Store.OverdueTasks | bot/database.py:258-260 | exactly the tasks whose deadline text is below today's text, compared as strings, and whose status is not done |
| Store.TasksDueOn | bot/database.py:266-268 | exactly the tasks whose deadline text equals the date text and whose status is not done |
| Store.ReportsOf | bot/database.py:252-255 | the user's twenty newest reports, or all of them when there are fewer, ids strictly descending, and every report of the user left out is older than every one shown |
| Store.ReportsBy | bot/database.py:255 | exactly the reports of the user |
| Store.Database.constructor | bot/database.py:39-109 | the five tables start empty and every id sequence starts at 1 |
| Store.Database.SeedAdmins | bot/database.py:112-122 | the loop leaves the user table equal to the seeding function above, whose properties are proved |
| Store.Database.AddUser | bot/database.py:131-139 | the user table becomes the upsert of the row |
| Store.Database.DeleteUser | bot/database.py:141-146 | the user table loses the row of that id |
| Store.Database.DeleteReleaseCascade | bot/database.py:155-161 | exactly the tasks with that release id and the release of that id are removed; every other row stays, in order |
| Store.Database.DeleteTask | bot/database.py:163-168 | exactly the task of that id is removed |
| Store.Database.CreateTask | bot/database.py:181-189 | one pending row is appended under the next id |
| Store.Database.UpdateTaskStatus | bot/database.py:212-220 | the task table becomes the update above |
| Store.Database.MarkTaskOverdue | bot/database.py:262-264 | only that task's status changes, to overdue |
| Store.Database.CreateReport | bot/database.py:247-250 | one report row of the user with the given date and text is appended under the next id |
| Store.Database.UpdateArtistFlag | bot/database.py:274-279 | only one column of one artist changes |
| Store.Database.CreateArtist | bot/database.py:293-298 | one artist row with every flag 0 is appended and its new id is returned |
| Store.Database.CreateRelease | bot/database.py:300-305 | one release row is appended and its new id is returned |
| Users.ListUsers | bot/handlers/users.py:14-26 | the founder is shown every user, a permutation of the table ordered by role; any other role gets nothing |
| Users.AddUserStart | bot/handlers/users.py:28-34 | the founder enters the ID step; any other role leaves the step as it was |
| Users.AddUserTgIdStep | bot/handlers/users.py:36-42 | a digit-only answer is stored under "uid" and the form moves to the name step; any other answer leaves step and data unchanged |
| Users.AddUserNameStep | bot/handlers/users.py:44-54 | any text is stored as the name and the form moves to the role step |
| Users.RoleLabelAccepted | bot/handlers/users.py:59-60 | the role step accepts a text exactly when it is one of the four role labels |
| Users.AddUserFinish | bot/handlers/users.py:56-67 | a role label upserts the row (int of the stored id, stored name, the label's code, no username), welcomes that id and clears the form; any other text re-prompts with form and table unchanged |
| Users.DeleteUserStart | bot/handlers/users.py:69-88 | the founder is offered exactly the users whose role is not founder, as a multiset, in role order; any other role gets nothing |
| Users.RmUsrRoundTrip | bot/handlers/users.py:86 | the button `rm_usr_<id>` starts with "rm_usr_" and its third `_`-piece reads back as the id |
| Users.DeleteUserConfirm | bot/handlers/users.py:90-95 | the id read from the third piece is deleted and afterwards has no row; data whose third piece is not an integer writes nothing |
| Reports.ReportStart | bot/handlers/reports.py:14-22 | the form enters the report step exactly when the sender's role is smm; anyone else is refused with the step unchanged |
| Reports.ReportSubmit | bot/handlers/reports.py:24-37 | the cancel text stores nothing; any other text stores one report of the author dated today's `YYYY-MM-DD`; either way the form is cleared |
| Reports.TruncateShape | bot/handlers/reports.py:56-57 | a history text of at most 4000 characters is unchanged; a longer one is its first 4000 characters followed by the fixed note |
| Reports.ReportHistory | bot/handlers/reports.py:40-59 | nothing for a role other than smm; for an smm the notice exactly when the user has no report at all; otherwise the header and one entry per report, newest first, cut at the limit |
| Reports.HistoryText | bot/handlers/reports.py:50-52 | the `text +=` loop builds the header followed by the entries of the reports in order |
| Reports.EntriesPrefix | bot/handlers/reports.py:51-52 | the entries of the first reports are a prefix of the entries of all of them |
| Reports.TruncateKeepsNewest | bot/handlers/reports.py:50-57 | when the header and the newest entries fit in the limit, the cut history begins with them whole |
| Artists.MarkersShown | bot/handlers/artists.py:26-31 | the status text is the five per-flag pieces in the shown order |
| Artists.StatusMarkerFlags | bot/handlers/artists.py:26-31 | the status text holds one marker per set flag, in the order contract, mm_profile, mm_verify, yt_link, yt_note, and a flag's marker appears exactly when the flag is set |
| Artists.ArtistList | bot/handlers/artists.py:24-35 | one button per artist, in the given order, labelled with the name and markers and carrying `view_art_<id>`, then the add button |
| Artists.ListArtists | bot/handlers/artists.py:13-38 | founder and anr get the list of every artist in name order; any other role gets nothing |
| Artists.BackToList | bot/handlers/artists.py:143-158 | the same list with no role check |
| Artists.ViewArtRoundTrip | bot/handlers/artists.py:33 | the third `_`-piece of `view_art_<id>` reads back as the id, as `view_artist` reads it |
| Artists.RenderArtist | bot/handlers/artists.py:88-120 | nothing for an unknown id; otherwise the card with the manager's name or "Не назначен", the first release date or "Не задан", and one button per flag in the shown order that shows the flag and toggles it |
| Artists.MiddleRoundTrip | bot/handlers/artists.py:129-131 | the middle pieces of `<head>_<col>_<id>` rejoined by '_' give the column, even when it contains '_', and the last piece gives the id |
| Artists.TogRoundTrip | bot/handlers/artists.py:112 | `tog_<col>_<id>` parses back to the column and the id |
| Artists.TogTokenRoundTrip | bot/handlers/artists.py:112 | every flag button of the card parses back to its own column name, which names that flag, and its artist |
| Artists.ColumnNameRoundTrip | bot/handlers/artists.py:101-107 | each flag's column name denotes that flag |
| Artists.Toggled | bot/handlers/artists.py:133-138 | the named artist's flag flips, no other column or row changes, and an unknown id changes nothing |
| Artists.FlipBack | bot/handlers/artists.py:136 | flipping one artist's flag and flipping it again restores the row |
| Artists.ToggleTwice | bot/handlers/artists.py:133-138 | pressing the same toggle twice restores the artist table |
| Artists.ToggleFlag | bot/handlers/artists.py:127-141 | a button naming an integer id and a flag column toggles that flag as above; an id that is not an integer, an unknown artist or a column that is no flag changes nothing |
| Artists.AddArtistStart | bot/handlers/artists.py:40-45 | the form enters the name step |
| Artists.AddArtistName | bot/handlers/artists.py:47-58 | the name is stored, the form moves to the manager step, and each user in role order is offered as a `set_mgr_<id>` button |
| Artists.SetMgrRoundTrip | bot/handlers/artists.py:54 | the third `_`-piece of `set_mgr_<id>` reads back as the id, as `add_artist_date` reads it |
| Artists.AddArtistManager | bot/handlers/artists.py:60-67 | the manager id read from the button is stored and the form moves to the date step; data without an integer third piece changes nothing |
| Artists.DateAnswer | bot/handlers/artists.py:71-79 | "нет" in any case means no date; otherwise the normalised text is accepted exactly when it parses as `%Y-%m-%d`, and anything else re-prompts |
| Artists.NoDateAnyCase | bot/handlers/artists.py:72 | "Нет", "НЕТ" and "нет" all mean no date |
| Artists.AddArtistFinish | bot/handlers/artists.py:69-86 | an accepted date answer creates the artist with the stored name and manager, that date and every flag unset, returns its id and clears the form; any other answer re-prompts with nothing changed |
| Releases.SpecsOrder | bot/handlers/releases.py:25-37 | the table has 3 entries, plus 1 when a cover is needed, plus 3 for an album, in the order cover, distribution, pitching, snippet, tracklist, metadata, promo plan, with 14, 10, 7, 3, 30, 20 and 15 days |
| Releases.SpecsAssignees | bot/handlers/releases.py:16-37 | cover and snippet need a file and go to the first designer, or to the manager without one; every other entry goes to the manager and needs no file |
| Releases.SpecsFallback | bot/handlers/releases.py:21-31 | without a designer the description of each design task ends with " (Fallback: нет дизайнера)" |
| Releases.DeadlineDate | bot/handlers/releases.py:43-47 | a day already passed becomes today, any other stays, so the deadline is never before today |
| Releases.Deadline | bot/handlers/releases.py:39-47 | a deadline exists exactly when the release date minus the days does not fall before year 1 |
| Releases.TaskOf | bot/handlers/releases.py:49 | the task is titled by the entry's name followed by " \| <artist>", goes to the entry's assignee, is created by the manager, belongs to the release and keeps the entry's description, deadline and file flag |
| Releases.StepFacts | bot/handlers/releases.py:40-49 | an entry yields a task exactly when its day exists, and the task is due that day or today if the day has passed |
| Releases.Plan | bot/handlers/releases.py:40-49 | the loop inserts at most one task per entry, in table order, up to the first entry whose day does not exist |
| Releases.PlanFacts | bot/handlers/releases.py:40-49 | task `i` of the plan is the one entry `i` yields |
| Releases.PlanComplete | bot/handlers/releases.py:40-49 | when every entry yields a task, every entry is inserted |
| Releases.GeneratedTasks | bot/handlers/releases.py:39-49 | every generated task follows its entry, is due on the entry's day or today, and its stored deadline text is never below today's |
| Releases.SubDaysDefined | bot/handlers/releases.py:42-43 | going back `k` days from a date after year `k` never overflows |
| Releases.SpecsDays | bot/handlers/releases.py:28-37 | every entry is at most thirty days before the release |
| Releases.PlanCompleteModern | bot/handlers/releases.py:39-49 | for a release after year 30 the whole table is inserted |
| Releases.Rows | bot/database.py:181-189 | one inserted row per planned task |
| Releases.RowsAt | bot/database.py:181-189 | row `i` is planned task `i` under id `start + i` |
| Releases.InsertPlan | bot/handlers/releases.py:40-49 | the loop appends exactly the plan's rows under consecutive ids and reports whether the whole table went in |
| Releases.GenerateTasks | bot/handlers/releases.py:14-49 | the table built with the first designer is inserted as the plan says |
| Releases.CreateReleaseStart | bot/handlers/releases.py:51-57 | founder and anr enter the artist step; any other role leaves the step as it was |
| Releases.ReleaseArtistStep | bot/handlers/releases.py:59-64 | any text is stored as the artist and the form moves to the title step |
| Releases.ReleaseTitleStep | bot/handlers/releases.py:66-72 | any text is stored as the title and the form moves to the type step |
| Releases.ReleaseTypeStep | bot/handlers/releases.py:74-80 | any text is stored as the type and the form moves to the cover step |
| Releases.ReleaseCoverStep | bot/handlers/releases.py:82-88 | need_cover is stored as true exactly for the answer "❌ Нужно сделать", and the form moves to the date step |
| Releases.ReleaseArtist | bot/handlers/releases.py:101-106 | an existing artist with exactly that name is reused; otherwise a new artist under the next id is created |
| Releases.EnsureArtist | bot/handlers/releases.py:101-106 | the artist is looked up by name, or created with the sender as manager and the release date as first release, and its id is returned |
| Releases.FileRelease | bot/handlers/releases.py:108-111 | the release row with the form's title and type, the cleaned date and the sender is appended under the next id, and its tasks are generated |
| Releases.CreateReleaseFinish | bot/handlers/releases.py:90-115 | a date that does not parse as `%Y-%m-%d` after replacing '.' and '/' with '-' writes nothing and keeps the form; otherwise artist, release and task rows are written as above, and the form is cleared once every task is inserted |
| Releases.PageButtons | bot/handlers/releases.py:150-157 | "back" appears exactly when page > 0 and leads to page−1; "forward" appears exactly when (page+1)*5 < total and leads to page+1 |
| Releases.RelPageRoundTrip | bot/handlers/releases.py:152-167 | the second `_`-piece of `relpage_<n>` reads back as the page number |
| Releases.PageButtonsNavigate | bot/handlers/releases.py:151-155 | the page a forward button leads to shows rows, and the page before any page with rows is full |
| Releases.ShowReleasesPage | bot/handlers/releases.py:123-162 | founder and anr see the page of their scope with its total; an empty page has no buttons; any other role, or a negative page, gets no answer |
| Releases.ReleasesPageCallback | bot/handlers/releases.py:164-168 | the page is read from the second piece of the data, and data without an integer there gets no answer |
| Releases.DeleteReleaseStart | bot/handlers/releases.py:170-180 | the founder gets one `del_rel_<id>` button per release among the ten latest; any other role gets nothing |
| Releases.DelRelRoundTrip | bot/handlers/releases.py:178-185 | the third `_`-piece of `del_rel_<id>` reads back as the id |
| Releases.DeleteReleaseConfirm | bot/handlers/releases.py:182-187 | the release read from the button and all its tasks are removed and every other row stays; data without an integer third piece writes nothing |
| Releases.CascadeLeavesNoOrphans | bot/database.py:155-161 | after the cascade no task points at the release, and every other task and release remains |
| Tasks.ManualTaskStart | bot/handlers/tasks.py:19-23 | the menu button opens the title step, keeping the data |
| Tasks.ManualTaskDesc | bot/handlers/tasks.py:25-30 | any text is stored as the title and the form moves to the description step |
| Tasks.AssignRoundTrip | bot/handlers/tasks.py:41-49 | the second `_`-piece of `assign_<id>` reads back as the user's id |
| Tasks.ManualTaskAssign | bot/handlers/tasks.py:32-44 | the description is stored, the form moves to the assignee step, and one `assign_<id>` button per user is offered in role order |
| Tasks.ManualTaskDeadline | bot/handlers/tasks.py:46-51 | the id in the second piece of the data is stored as the assignee and the form moves to the deadline step; data without one changes nothing |
| Tasks.ManualTaskReq | bot/handlers/tasks.py:53-64 | the cleaned answer is stored as the deadline only when it parses as `%Y-%m-%d`, and the form moves on; any other answer re-prompts with the form unchanged |
| Tasks.DeadlineSpellings | bot/handlers/tasks.py:57-59 | a padded date typed with '-', '.' or '/' is stored as its padded `YYYY-MM-DD` text, but the unpadded "2024-1-5" is accepted and stored as typed |
| Tasks.ManualTaskFin | bot/handlers/tasks.py:66-79 | the task is inserted with the collected fields, the author as creator, no release, and a required file exactly when the answer is "Да"; the assignee is told and the form is cleared |
| Tasks.ActiveWordOnlyInActiveLabel | bot/handlers/tasks.py:82-88 | of the two routed texts only "📋 Активные задачи" holds "Активные" |
| Tasks.CardButtons | bot/handlers/tasks.py:104-110 | finish and refuse appear exactly for the task's assignee, delete exactly for the founder |
| Tasks.ViewTasks | bot/handlers/tasks.py:82-111 | one card per listed task, with the overdue icon exactly for overdue tasks and the card buttons above |
| Tasks.ViewedTasksShape | bot/handlers/tasks.py:88-93 | listed tasks are open and ordered by deadline, and unless the founder pressed "📋 Активные задачи" they are the sender's own |
| Tasks.AskRoundTrip | bot/handlers/tasks.py:113-140 | the confirm button of `<head>_<id>` carries `<confirm>_<id>`, whose second piece reads back as the id, next to the `ignore_cb` button |
| Tasks.CardTokensRoundTrip | bot/handlers/tasks.py:106-145 | delete and refuse buttons lead through their confirm buttons back to the same task id, and finish leads to it directly |
| Tasks.AdminDeleteTaskConfirm | bot/handlers/tasks.py:122-131 | an existing task is announced to its assignee as annulled and then removed, every other task staying; a missing task, or data without an integer id, changes nothing |
| Tasks.DeleteTaskExact | bot/database.py:163-168 | deleting a task removes exactly the rows with its id |
| Tasks.RejectConfirm | bot/handlers/tasks.py:142-153 | an existing task becomes rejected and every admin is told; a missing task changes nothing and tells no one |
| Tasks.RefuseOnlyStatus | bot/handlers/tasks.py:148 | refusing changes only that task's status and keeps its file and comment |
| Tasks.HistoryView | bot/handlers/tasks.py:159-181 | one entry per shown task, marked as a Telegram file when the value holds "tg:", as a Disk link when it is another truthy value, and with no mark otherwise |
| Tasks.HistoryShape | bot/handlers/tasks.py:166-171 | the twenty done tasks with the latest deadlines (all when fewer), latest first, as a multiset drawn from everybody's done tasks for the founder and from the sender's own for anyone else; no done task left out has a later deadline |
| Tasks.FileRefRoundTrip | bot/handlers/tasks.py:244-269 | `tg:<kind>:<fid>` cut by `split(":", 2)` gives back the kind and the file id, whatever the id holds, and the history marks it as a Telegram file |
| Tasks.FinStartDataReady | bot/handlers/tasks.py:191 | the stored id, creator and title make the form ready for both finishing steps |
| Tasks.FinStart | bot/handlers/tasks.py:184-197 | a missing or done task is refused with the form as it was; otherwise its id, creator and title are stored over the existing data and the form goes to the file step exactly when the task requires a file, to the comment step otherwise |
| Tasks.FinFile | bot/handlers/tasks.py:199-247 | the cancel text clears the form; a message with neither document nor photo re-prompts unchanged; otherwise the Disk link, or `tg:<doc\|photo>:<fid>` when the upload gave none, is stored and the form asks for the comment |
| Tasks.FinCommit | bot/handlers/tasks.py:249-281 | the cancel text clears the form and writes nothing; any other message sets the task done with the stored file value and the text as comment, tells the creator about the file, and clears the form |
| Tasks.CommitOverwrites | bot/database.py:217-218 | a commit with a non-empty comment overwrites the file value and the comment |
| Tasks.StaleFileReachesOtherTask | bot/handlers/tasks.py:191 | as written, a file stored for task 1 whose comment step was left by pressing finish on task 2 (no file needed) is written to task 2 |
| Tasks.FreshStartKeepsFilesApart | bot/handlers/tasks.py:191 | with the correction, a commit writes no file when the file step was not visited and the file step's own value when it was |
| Tasks.FinStartCorrected | bot/handlers/tasks.py:184-197 | as `FinStart`, but the form never carries an earlier file value |
| Jobs.SweptTable | bot/database.py:258-264 | the table after the sweep keeps its length, and each row is the selected row marked overdue or the row as it was |
| Jobs.LateNotes | bot/jobs.py:16 | one overdue notice per task, to its assignee, in order |
| Jobs.MarkStep | bot/database.py:262-264 | marking one more id extends the set of marked ids by it |
| Jobs.MarkSkip | bot/jobs.py:14 | with unique ids, skipping a task already overdue leaves the same table as marking it |
| Jobs.MarkedAllIsSwept | bot/jobs.py:12-15 | with unique ids, marking the ids of the selected rows marks exactly the selected rows |
| Jobs.MarkOne | bot/jobs.py:14-15 | a loop step marks the row of the task unless it is overdue already, keeping the table valid |
| Jobs.Sweep | bot/jobs.py:12-16 | the sweep's loop leaves the swept table and tells the assignee of each selected task, in order |
| Jobs.MarkEach | bot/jobs.py:13-15 | marking each given task overdue marks exactly the rows of their ids |
| Jobs.TellEach | bot/jobs.py:16 | one overdue notice per given task, in order |
| Jobs.JobCheckOverdue | bot/jobs.py:9-16 | with today's date as `%Y-%m-%d` text, the table becomes the swept table and each task whose deadline text is below it and which is not done is announced to its assignee |
| Jobs.SweepEffect | bot/database.py:260 | after the sweep every selected task is overdue, a refused one included; done tasks and tasks whose deadline text is not below today's stay as they were |
| Jobs.SweepIdempotent | bot/jobs.py:14-15 | a second sweep on the same day changes no row |
| Jobs.SweptConcat | bot/jobs.py:13 | the sweep works row by row: sweeping two parts is sweeping their concatenation |
| Jobs.OverdueCons | bot/database.py:260 | the selection taken one row at a time |
| Jobs.SweptCons | bot/jobs.py:13-15 | the swept table taken one row at a time |
| Jobs.SweepSelectsAgain | bot/database.py:260 | the rows selected after a sweep are the swept selected rows |
| Jobs.SweepRenotifies | bot/jobs.py:13-16 | right after a sweep the same tasks are selected again and the same notices are sent again |
| Jobs.UnpaddedDeadlineLateOverdue | bot/database.py:260 | a task due "2024-1-5" is not selected on "2024-01-10", five days later, nor on "2024-09-30", and is selected from "2024-10-01" on, because deadline texts are compared |
| Jobs.GeneratedNotOverdue | bot/handlers/releases.py:39-49 | the tasks of a new release are not selected by a sweep on the day they are created |
| Jobs.DueNotes | bot/jobs.py:23 | one deadline warning per task, to its assignee, in order |
| Jobs.JobDeadlineAlerts | bot/jobs.py:18-23 | the assignee of every task due tomorrow and not done is warned; on the last day of the calendar nobody is |
| Jobs.Alerts | bot/jobs.py:21-23 | the alerts' loop sends the warnings of exactly the tasks due on the day |
| Jobs.WarnEach | bot/jobs.py:22-23 | one warning per given task, in order |
| Jobs.DueNotesExact | bot/database.py:266-268 | every task due on the day and not done is warned about, and every warning is called for by such a task |
| Jobs.PromptNotes | bot/jobs.py:28-30 | one contract prompt per artist, to its manager, in order |
| Jobs.JobOnboarding | bot/jobs.py:25-30 | the manager of every artist without a signed contract is prompted about it, and every prompt is for such an artist |
| Jobs.OnbAct | bot/jobs.py:36-41 | `onb_cont_<id>` sets that artist's contract flag and nothing else; another type word, or an id that is not an integer, changes nothing |
| Jobs.OnbContRoundTrip | bot/jobs.py:29-40 | the prompt's button is read back as the contract flag of the artist it was made for |
| Jobs.OnbIdempotent | bot/database.py:274-279 | recording a contract twice leaves the table as recording it once |
| Monolith.MonoSpecsShape | bot.py:453-468 | three tasks, or four with the cover first: distribution 10 days before, pitching 7, snippet 3 and cover 14; the cover and snippet need a file and go to the designer (or the manager as fallback), the rest to the manager |
| Monolith.MonoSpecsAreSingleSpecs | bot.py:465-468 | for anything but an album the table is the package's table entry for entry |
| Monolith.AlbumTasksMissing | bot.py:465-468 | an album gets three tasks fewer than in the package |
| Monolith.MonoGeneratedTasks | bot.py:470-474 | every generated task follows its entry and is due exactly its number of days before the release, with no clamp to today |
| Monolith.ReleaseTodayOverdueAtOnce | bot.py:470-474 | a release filed for today gets only tasks the overdue sweep selects that same day |
| Monolith.EarlyEntriesOverdue | bot.py:473 | tasks due days before the release are overdue on the release day |
| Monolith.MonoGenerateTasks | bot.py:453-474 | the rows of the plan are appended under consecutive ids, and the result says whether the whole table went in |
| Monolith.MonoCreateReleaseFinish | bot.py:426-451 | an unparsable date changes nothing; otherwise the artist is reused by name or inserted, the release row is inserted, bot.py's task table is generated, and the form is cleared once all of it is in |
| Monolith.MonoUnrouted | bot.py:269-289 | the labels of a role's menu that no handler answers, both directions |
| Monolith.MonoLabels | bot.py:269-289 | the menu labels of each role, in order |
| Monolith.MonoSmmRouted | bot.py:738-752 | both smm report buttons are answered in bot.py, which the package does not do |
| Monolith.MonoFounderRouted | bot.py:271-277 | every founder button is answered, user deletion included |
| Monolith.MonoAnrRouted | bot.py:278-283 | every anr button is answered |
| Monolith.MonoDesignerUnrouted | bot.py:284-285 | the designer's "🕰 Просроченные" is answered by no handler |
| Monolith.MonoSmmStart | bot.py:738-741 | any user enters the report step; there is no role check |
| Monolith.MonoListUncut | bot.py:751-756 | a single report comes back whole as its line, however long its text |
| Monolith.MonoListEmpty | bot.py:751-756 | a sender without reports gets the fixed reply |
| Orm.DigitPiecesConcat | main.py:27 | the comprehension works piece by piece over the list of pieces |
| Orm.OrmAdminIdsConcat | main.py:27 | the ids of two texts joined by a comma are the first text's ids followed by the second's |
| Orm.OrmAdminIdsPiece | main.py:27 | one piece gives its value when it is ASCII digits once stripped and nothing otherwise, so a malformed piece, a negative number or an empty variable is dropped |
| Orm.OrmAdminIdsRoundTrip | main.py:26-27 | a comma-joined list of non-negative ids reads back as those ids |
| Orm.PiecesRead | main.py:27 | the decimal pieces of a list of ids read back as the ids |
| Orm.RewriteUrl | main.py:32-33 | an unset or empty URL, and one that already starts with the async driver, is kept; any other has every plain scheme rewritten and keeps no plain scheme |
| Orm.RewriteIdempotent | main.py:32-33 | rewriting the URL twice is rewriting it once |
| Orm.RewritePlainUrl | main.py:32-33 | `postgresql://<rest>` becomes `postgresql+asyncpg://<rest>` |
| Orm.ReplaceAllAbsent | main.py:33 | a text without the pattern is left as it is by the replacement |
| Orm.ReplaceAllClean | main.py:33 | after the replacement no plain scheme is left in the text |
| Orm.AsyncPrefixClean | main.py:33 | the async scheme followed by a text without the plain scheme holds no plain scheme |
| Orm.GetUser | main.py:125-133 | the lookup by Telegram id finds a row of that id, and finds none exactly when no row has it |
| Orm.GetTask | main.py:420 | the lookup by id finds a task of that id, and finds none exactly when no row has it |
| Orm.GetArtist | main.py:468 | the lookup by id finds an artist of that id, and finds none exactly when no row has it |
| Orm.FirstWithRole | main.py:340-341 | the first user of the role in table order, and none exactly when the role has no user |
| Orm.OrmStore.constructor | main.py:42-95 | the tables start empty with their id counters at 1 |
| Orm.OrmStore.AddUser | main.py:169-171 | a user with a new id is appended |
| Orm.OrmStore.AddRelease | main.py:330-336 | the release is appended under the next id, which the flush returns |
| Orm.OrmStore.AddTask | main.py:355-361 | the planned task is appended under the next id as an "Auto" pending row of the release |
| Orm.OrmStore.InsertTasks | main.py:353-361 | the planned tasks are appended in order under consecutive ids |
| Orm.OrmStore.Close | main.py:430-431 | the task of the id is completed in the table |
| Orm.OrmStore.MarkOverdue | main.py:488 | exactly one row changes, to status overdue |
| Orm.OrmStore.UpdateArtist | main.py:473-479 | the artist row of the id is replaced and the rest kept |
| Orm.OrmForm.SetState | main.py:106-117 | the form moves to the given step |
| Orm.OrmForm.UpdateData | main.py:426 | one key of the form's data is set and the rest kept |
| Orm.OrmForm.Clear | main.py:369 | the form returns to no step and no data |
| Orm.TaskRows | main.py:355-360 | one row per planned task |
| Orm.CloseTask | main.py:430 | completing keeps the table's length and every row's id |
| Orm.SetArtist | main.py:473-476 | replacing an artist keeps the table's length and every row's id |
| Orm.Plan | main.py:353-364 | the loop sends one new-task notice per row it plans, to the row's assignee, and every planned deadline is a date |
| Orm.PlanTasks | main.py:353-366 | the loop computes exactly the plan: rows, notices and whether a deadline overflowed |
| Orm.PlanAt | main.py:353-361 | an entry without an assignee is skipped, an overflowing deadline stops the loop, and any other entry adds its row and notice |
| Orm.PlanCons | main.py:354-363 | one loop step for an entry whose deadline exists |
| Orm.PlanBefore | main.py:357 | with offsets all before the release, every planned deadline lies before the release date |
| Orm.OrmSpecsBack | main.py:346-351 | every offset of the table lies before the release |
| Orm.SubDaysFewer | main.py:357 | a date that can go back `k` days can go back fewer |
| Orm.OrmGenerated | main.py:340-366 | when the cover deadline exists the loop finishes and adds the upload for the A&R if any, the cover for the designer or else the A&R if either exists, and the pitching for the A&R on an 80/20 deal, in that order and at 14, 20 and 10 days before |
| Orm.PlanShape | main.py:346-361 | the generated rows, with the titles and the deal kept abstract |
| Orm.PitchShape | main.py:350-351 | the pitching entry adds its row exactly for an 80/20 deal with an A&R |
| Orm.NewReleaseFinish | main.py:318-369 | a date not `%d.%m.%Y` is refused with the form as it was. A date step reached through a stale `type_` or `sel_art_` button without title, artist or type raises `KeyError`: nothing is sent or written and the form is kept. Otherwise the notices are sent, and either an overflow writes nothing and keeps the form, or the release and its tasks are committed and the form cleared |
| Orm.ToCreator | main.py:433-435 | at most one notice, to the author when there is one |
| Orm.DoneTaskClick | main.py:415-435 | a missing task changes nothing; a task needing a file records its id and waits for the file; any other is set done and its author told |
| Orm.TaskFileUpload | main.py:437-454 | a message without document or photo changes nothing; otherwise the recorded task is set done with `tg_file:<id>`, its author told and the form cleared, unless the task has gone |
| Orm.CloseTaskEffect | main.py:430-448 | completing changes that task alone, which reads back done with its file when one came; a missing id changes nothing |
| Orm.GetTaskUnique | main.py:420 | with increasing ids the lookup of a row's id finds that row |
| Orm.GetTaskOthers | main.py:430 | rewriting only rows of one id leaves every other lookup alone |
| Orm.CloseTaskIdempotent | main.py:415-448 | completing a task twice is completing it once |
| Orm.OrmSwept | main.py:486-488 | the sweep keeps the table's length, marking each selected row overdue |
| Orm.CheckOverdueTasks | main.py:483-491 | every task past its deadline and pending or in progress becomes overdue and its assignee is told once; no other row changes |
| Orm.SweptNotSelected | main.py:486 | no row left by the sweep is selected again |
| Orm.QuietTable | main.py:486-489 | a table with no selected row gives no notice |
| Orm.OrmSweepSecondRun | main.py:483-491 | a second sweep at the same time changes nothing and tells nobody |
| Orm.OrmSweepKeeps | main.py:486 | done and overdue rows, and rows not yet due, come through the sweep untouched |
| Orm.LateNotesExact | main.py:486-489 | the notices go to exactly the selected rows' assignees |
| Orm.ToAdmins | main.py:514-515 | one alert per admin |
| Orm.TellAdmins | main.py:514-516 | the inner loop sends exactly one alert per admin, in order |
| Orm.CriticalPitchingCheck | main.py:505-516 | the target is three days after today; every admin is alerted about every pitching task not done due on the target, and nothing is sent when the target does not exist |
| Orm.PitchNotesExact | main.py:510-516 | every alert goes to an admin about a burning task, and every admin is alerted about every burning task |
| Orm.PitchTitleMatches | main.py:510 | the generated pitching title matches the case-insensitive search whatever the release title |
| Orm.GeneratedPitchBurns | main.py:510-513 | a generated pitching task not done is alerted for the target exactly when its deadline is the target |
| Orm.OnboardingAudit | main.py:493-503 | one contract question per artist without a signed contract, to its manager, in table order |
| Orm.OnbCallback | main.py:457-480 | the table becomes the applied callback: nothing for "no", a missing artist or a button that does not parse; "contract" signs, "musix" records Musixmatch, other kinds change no flag |
| Orm.OnbRoundTrip | main.py:459-461 | `onb_<kind>_<answer>_<id>` with one-word kind and answer reads back as the three fields |
| Orm.AuditButtonsRead | main.py:499-500 | the audit's two buttons read back as the contract answered yes or no about that artist |
| Orm.GetArtistUnique | main.py:468 | with increasing ids the lookup of an artist's id finds that artist |
| Orm.AuditAnswers | main.py:463-473 | answering yes signs that artist's contract and changes no other row; answering no changes nothing |
| Orm.SetArtistAt | main.py:473-479 | replacing the row of one id touches that row only |
| Orm.SetArtistSame | main.py:479 | writing a row back unchanged leaves the table as it was |
| Orm.OnbAppliedRow | main.py:468-477 | the effect of a parsed answer other than "no" on the row of its id |
| Orm.OnbIdempotent | main.py:457-480 | repeating a callback changes nothing more |
| Orm.AuditQuestionsRead | main.py:496-500 | every question the audit sends carries buttons that read back as the contract of its artist, and every unsigned artist is asked |
| Orm.GetUserAppend | main.py:169-171 | after appending a new user, the lookup finds it and every other lookup is as before |
| Orm.CmdStart | main.py:160-178 | a configured admin with no row is registered as founder; whoever has a row is welcomed with its role, anyone else refused, so an admin is never refused |
| Dates.PrevDay | bot/handlers/releases.py:42-44 | the day before a date, which is earlier, and none exactly for 0001-01-01 |
| Dates.NextDay | bot/jobs.py:20 | the day after a date, which is later, and none exactly for 9999-12-31 |
| Dates.SubDays | bot/handlers/releases.py:42-44 | going back `k` days gives a valid date, earlier when `k` is positive, and the date itself for `k` = 0 |
| Dates.AddDays | bot/database.py:315 | going forward `k` days gives a valid date, later when `k` is positive |
| Dates.AddSubDays | bot/handlers/releases.py:42-44 | going back `k` days and forward `k` days returns to the date |
| Dates.Pad | bot/jobs.py:11 | a field printed in exactly its width with leading zeros, reading back as its value |
| Dates.Format | bot/jobs.py:11 | the stored text of a date is ten characters long |
| Dates.ParseIso | bot/handlers/releases.py:95 | `%Y-%m-%d` accepts only dates that exist |
| Dates.ParseDotted | main.py:321 | `%d.%m.%Y` accepts only dates that exist |
| Dates.CleanDateSeparators | bot/handlers/releases.py:94 | the clean-up treats '.', '/' and '-' alike |
| Dates.FormatShape | bot/jobs.py:11 | the stored text is the padded year, month and day joined by '-' |
| Dates.ParseFormat | bot/handlers/releases.py:39-47 | parsing the stored text of a date gives back the date |
| Dates.CleanFormatted | bot/handlers/tasks.py:57-58 | a padded date typed with '-', '.' or '/' cleans and parses to the date |
| Dates.LessDigits | bot/database.py:260 | digit texts of one length compare as the numbers they spell |
| Dates.PadLess | bot/database.py:260 | padded fields of one width compare as their values |
| Dates.FormatOrder | bot/database.py:260 | stored dates compare as text exactly as they compare as dates |
| Dates.ParseIsoFields | bot/handlers/releases.py:95 | well-formed fields parse to the date they spell when it exists |
| Dates.UnpaddedSortsOutOfOrder | bot/handlers/tasks.py:57-60 | "2024-1-5" is accepted as 5 January, yet as text it sorts after "2024-01-10", a later day |
| Text.NatToString | bot/handlers/users.py:85 | the decimal spelling of a number is digits with no leading zero and reads back as the number |
| Text.IntToString | bot/handlers/tasks.py:106-110 | the spelling of an integer holds no '_', ':' or ',' |
| Text.Strip | main.py:27 | stripped text neither starts nor ends with white space |
| Text.StripUnpadded | main.py:27 | text without outer white space is left alone by strip |
| Text.ParseIntOfDigits | main.py:27 | every text of ASCII digits is read by int as its value |
| Text.ParseIntOfIntToString | bot/handlers/tasks.py:125 | int of the spelling of an integer is the integer |
| Text.Split | bot/handlers/tasks.py:125 | split gives at least one piece and no piece holds the separator |
| Text.JoinSplit | bot/config.py:14 | joining the pieces of a split restores the text |
| Text.SplitJoin | bot/config.py:14 | splitting a join of separator-free pieces gives the pieces back |
| Text.SplitConcat | bot/handlers/tasks.py:125 | splitting two texts joined by the separator splits each of them |
| Text.SplitMax | bot/handlers/tasks.py:269 | split with a maximum gives at most that many cuts plus one pieces |
| Text.ContainsAt | main.py:510 | a text holds every piece cut out of it |
| Text.Lower | main.py:510 | lower-casing works character by character and keeps the length |
| Text.ReplaceChar | bot/handlers/releases.py:94 | each occurrence of the character is replaced and every other character kept |
| Tokens.TokenRoundTrip | bot/handlers/users.py:85-93 | `<head>_<id>` splits into the head's pieces and the id, and the piece after the head reads back as the id |
| Tokens.SplitTwoWords | bot/handlers/users.py:93 | a two-word head splits into its two words |
| Ordering.LessTrichotomy | bot/database.py:196 | text order is total and asymmetric |
| Ordering.LessTransitive | bot/database.py:196 | text order is transitive |
| Ordering.SortBy | bot/database.py:196 | `ORDER BY` returns the same rows, as a multiset, in key order |
| Ordering.InsertSorted | bot/database.py:196 | inserting a row into an ordered table keeps it ordered |
| Ordering.Filter | bot/database.py:196 | `WHERE` keeps exactly the rows that satisfy it, from the table |
| Ordering.FilterCount | bot/database.py:196 | `WHERE` keeps every copy of a satisfying row and no copy of any other |
| Ordering.FilterSorted | bot/database.py:203 | filtering keeps an ordered table ordered |
| Ordering.Page | bot/database.py:234 | `LIMIT` and `OFFSET` give the rows from the offset, at most the limit of them |
| Ordering.PageOfSorted | bot/database.py:234 | a page of an ordered table is ordered, comes from the table and is as long as the remaining rows allow |
| Ordering.IdsUnique | bot/database.py:62 | increasing ids are unique |
| Ordering.SerialAppend | bot/database.py:296 | an insert under the counter keeps the table serial and advances the counter |
| Ordering.SerialFilter | bot/database.py:163-168 | deleting rows keeps a table serial |
| Ordering.NewestFirst | bot/database.py:255 | `ORDER BY id DESC LIMIT n` gives strictly decreasing ids, and every row left out is older than every row kept |
| Ordering.Reverse | bot/database.py:255 | reading the table backwards |
| Ordering.Find | bot/database.py:124-129 | a lookup on a key column finds a row carrying the key, and finds none exactly when no row carries it; every table's lookup by id is this one |
| Ordering.Take | bot/database.py:255 | `LIMIT n` keeps the first rows, all of them when there are at most `n` |
| Ordering.Top | bot/database.py:338 | `ORDER BY key LIMIT n` gives min(n, rows) rows, drawn from the table as a multiset, in key order, and no row left out is strictly ahead of a row kept |
| Ordering.PagedPrefix | bot/database.py:234 | `LIMIT size OFFSET i*size` pages 0 to k-1 one after the other are the first min(k*size, rows) rows |
| Ordering.PagesInOrder | bot/database.py:234 | on a sorted table no row of page k is strictly ahead of a row of page k-1 |
| Ordering.PageStep | bot/database.py:234 | the rows before page k-1 followed by page k-1 are the rows before page k |
| Ordering.LessAfterCommon | bot/database.py:260 | texts that agree up to a first differing character compare as that character |
| Dates.ParseUnpadded | bot/handlers/tasks.py:57-58 | `%Y-%m-%d` accepts the unpadded "2024-1-5" as 5 January 2024 |
| Dates.PaddedSortsFirst | bot/database.py:260 | as text, "2024-01-10" sorts before "2024-1-5" |
| Forms.UpdateKeepsKinds | bot/states.py:3-38 | storing an answer of the right kind keeps the form's data well kinded and every other answer as it was |
| Forms.FsmContext.SetState | bot/states.py:3-38 | the form moves to the step and keeps its data |
| Forms.FsmContext.UpdateData | bot/handlers/tasks.py:191 | one answer is stored over the data and every other key kept |
| Forms.FsmContext.Clear | bot/handlers/common.py:13 | the form is left with no step and no data |

## Left out

- Chat I/O. Sending, editing and deleting messages is left out, exceptions are swallowed, and the HTML and emoji of every text are not modelled. A handler's effect on other users is the list of notices it returns; the reply to the sender is modelled only where it carries a decision (a refusal, a listing, a keyboard).
- The Yandex Disk client (`bot/services/yandex_disk.py`, `bot.py:61-94`) makes HTTP calls. An upload is a parameter of `Tasks.FinFile` that gives a link or nothing. The file-size check around Telegram downloads is left out for the same reason.
- The clock. `datetime.now()` and `datetime.date.today()` are parameters. Today's date is not tied to the instant at which a job fires.
- Router wiring and scheduler cadence come from `bot/main.py` and `bot/handlers/__init__.py`, which are not part of this model. The first router to match a text wins, so the in-step cancel branches of the forms sit behind the common cancel handler. The model keeps each handler's own behaviour rather than the dispatch between them.
- `bot/main.py` imports a `job_pitching_alert` that `bot/jobs.py` does not define, so the package fails at import as written. Each job is modelled on its own, as if the import succeeded.
- Cooperative async interleaving of handlers and jobs is left out. Each handler and job is one sequential step over the tables.
- SQL drivers, pools, cursors and sessions are left out. The tables are sequences with the semantics of the queries shown. PostgreSQL still consumes a `SERIAL` value for a rolled-back insert; `Orm.NewReleaseFinish` does not advance the release counter when a deadline overflows.
- Store.Designer: the query has no `ORDER BY`, so PostgreSQL may return any designer. The model returns the first in table order, and its contract promises only some designer.
- Store.ArtistByName: the query has no `ORDER BY` either. The model returns the first artist of the name in table order.
- Orm.FirstWithRole: `limit(1)` without an order returns some user of the role. The model returns the first in table order.
- `ORDER BY` on equal keys: the model keeps table order for ties, which SQL leaves unspecified.
- Text order: text columns compare code point by code point, as under the PostgreSQL "C" collation. Another database collation would order the `ORDER BY` listings differently. It would also change the `WHERE deadline < today` comparisons of `Store.OverdueTasks`. So the days `Jobs.UnpaddedDeadlineLateOverdue` names hold under that collation only: an ICU or en_US collation weighs '-' differently, and the first day an unpadded deadline is selected moves.
- SELECTs without `ORDER BY` (`Store.UnsignedArtists`, `Store.ReleasesOn`, `Store.TasksDueOn`, `Store.OverdueTasks`, `Orm.OverdueSelected` in `Orm.CheckOverdueTasks`, `Orm.OnboardingAudit`): the model returns the rows in insertion order, and the notices built from them follow that order. PostgreSQL promises no order for such a query. Only the set of rows, and the one-notice-per-row correspondence, hold whatever order the database picks.
- Orm.PitchCandidate: `ilike` depends on the database's case folding. The model lower-cases ASCII letters, Cyrillic А-Я and Ё.
- Text.ParseInt: Python's `int` also accepts non-ASCII decimal digits and underscores between digits. The model accepts ASCII digits only, with optional white space and sign.
- Text.IsDigits: Python's `isdigit` accepts more than `int` does: a superscript such as "²" passes `isdigit` and makes `int` raise `ValueError`. So `ADMIN_IDS="²"` stops main.py at start-up (main.py:27), and the same text passes the ID step (bot/handlers/users.py:39) and then raises when the role is chosen (bot/handlers/users.py:63). The model's `isdigit` is ASCII only, so it captures neither failure.
- Dates.ParseIso, Dates.ParseDotted: `strptime` reads its numeric fields with a pattern that accepts any Unicode decimal digit, so a date typed in, say, full-width digits parses in the source. The model accepts ASCII digits only and rejects it.
- Artists.ToggleFlag: a hand-crafted `tog_` button naming another column of the artist row writes 0 or 1 into it. For the integer columns that overwrites the value: `tog_id_<aid>` sets the artist's `id` to 0 and `tog_manager_id_<aid>` sets `manager_id` to 0 or 1. For the TEXT columns `name` and `first_release_date` the driver rejects the integer and the update raises. The model changes nothing for any column other than the five flags, since the bot emits buttons for those five only.
- Messages without text (a sticker, a voice note) in a text step are left out: every text step takes a string. Only the file step of the finish form distinguishes attachments.
- `database.py` (root) holds declarations only and is not used by the package: not modelled. `bot/states.py` is the step datatype of `Forms`.
- bot.py: its store methods, forms, auth middlewares, task handlers, jobs and `onb_act` are the package's statements and are modelled once, in the package's modules. Its users table has no username column, and its `/start` does not refresh one: not modelled separately.
- bot.py's `list_releases` (`bot.py:476-502`) is a display of the releases table and is not modelled. Its release deletion's confirmation (`bot.py:515-519`) runs the package's cascade and is modelled once, by `Releases.DeleteReleaseConfirm`.
- bot.py's `delete_rel_start` (`bot.py:504-513`) is not modelled. It lists every release, latest date first, with no `LIMIT 10`, so it offers one button per release where `Releases.DeleteReleaseStart` offers the ten latest.
- bot.py's `delete_user_start` (`bot.py:374-384`) is not modelled. Its query has no `ORDER BY role`, so it offers the non-founder users in whatever order the database returns, where `Users.DeleteUserStart` sorts them by role.
- main.py's other handlers are not modelled: statistics, employee list, release deletion, the panic button, task listing, the done list, the new-artist form and `get_main_menu`. They are display and chat plumbing over the tables the model defines.
- main.py has no auth middleware: its handlers are reachable by anyone, and only `Orm.CmdStart` decides registration.
- Orm.OnbParse: the `onb_` router filter is not modelled; the parse is total and gives `None` where the source raises. No emitter produces the "musix" kind, so that branch of `Orm.OnbApplied` is reachable only by a hand-crafted button.

## Findings

| source | as written | input that shows it | evidently intended | confidence | as-written member | corrected member |
|---|---|---|---|---|---|---|
| bot/handlers/tasks.py:191 | `fin_start` merges the task's id, creator and title into the existing form data with `update_data`, so a file value stored by an earlier, interrupted finish stays in the data | finish task 1, which needs a file, and upload it; then, at the comment step, press "finish" on task 2, which needs no file, and send a comment: task 2 is written with task 1's file | each commit writes only the file uploaded in its own run (clear the data, or drop `f_val`, when a finish starts) | not executed | Tasks.StaleFileReachesOtherTask | Tasks.FinStartCorrected, Tasks.FreshStartKeepsFilesApart |
