/**
 * bot/handlers/tasks.py: the CreateTask form, the task cards with their
 * buttons, refusing and deleting a task, the history of finished tasks,
 * and the FinishTask form, which collects a file (for tasks that require
 * one) and a comment and marks the task done.
 */
module Tasks {
  import opened Wrappers
  import opened Text
  import opened Ordering
  import opened Dates
  import opened Store
  import opened Forms
  import opened Keyboards
  import opened Tokens
  import opened Notices
  import opened Common

  // ---------------------------------------------------------------- creation

  /** `manual_task_start`: the menu button opens the title step. */
  method ManualTaskStart(ctx: FsmContext)
    requires ctx.Valid()
    modifies ctx`step
    ensures ctx.Valid() && ctx.step == CreateTaskTitle && ctx.data == old(ctx.data)
  {
    ctx.SetState(CreateTaskTitle);
  }

  /** `manual_task_desc`: any text is the title; the form asks for the description. */
  method ManualTaskDesc(ctx: FsmContext, text: string)
    requires ctx.Valid() && ctx.step == CreateTaskTitle
    modifies ctx
    ensures ctx.Valid()
    ensures ctx.step == CreateTaskDesc && ctx.data == old(ctx.data)["title" := VStr(text)]
  {
    ctx.UpdateData("title", VStr(text));
    ctx.SetState(CreateTaskDesc);
  }

  /** The label of an assignee button: the name and the role's label. */
  function AssigneeText(u: User): string
  {
    u.name + " (" + RoleName(u.role) + ")"
  }

  /** `assign_<telegram id>`. */
  function AssignToken(u: User): string
  {
    Token("assign", u.telegramId)
  }

  /** The assignee step reads back the id the button was made from. */
  lemma AssignRoundTrip(u: User)
    ensures IntField(AssignToken(u), 1) == Some(u.telegramId)
  {
    SplitWhole("assign", '_');
    TokenRoundTrip("assign", u.telegramId);
  }

  /**
   * `manual_task_assign`: any text is the description; the form offers one
   * assignee button per user, in the role order of `get_all_users`.
   */
  method ManualTaskAssign(ctx: FsmContext, db: Database, text: string) returns (kb: seq<Button>)
    requires ctx.Valid() && ctx.step == CreateTaskDesc
    modifies ctx
    ensures ctx.Valid()
    ensures ctx.step == CreateTaskAssignee && ctx.data == old(ctx.data)["desc" := VStr(text)]
    ensures var us := AllUsers(db.users);
            |kb| == |us| && forall i :: 0 <= i < |us| ==> kb[i] == Button(AssigneeText(us[i]), AssignToken(us[i]))
  {
    ctx.UpdateData("desc", VStr(text));
    kb := Buttons(AllUsers(db.users), AssigneeText, AssignToken);
    ctx.SetState(CreateTaskAssignee);
  }

  /**
   * `manual_task_deadline`: the id in the second piece of the callback data
   * is the assignee; data without one stops the handler with the form as it was.
   */
  method ManualTaskDeadline(ctx: FsmContext, data: string)
    requires ctx.Valid() && ctx.step == CreateTaskAssignee
    modifies ctx
    ensures ctx.Valid()
    ensures IntField(data, 1).None? ==> ctx.step == old(ctx.step) && ctx.data == old(ctx.data)
    ensures IntField(data, 1).Some? ==>
              ctx.step == CreateTaskDeadline && ctx.data == old(ctx.data)["assignee" := VInt(IntField(data, 1).value)]
  {
    var assignee := IntField(data, 1);
    if assignee.None? {
      return;
    }
    UpdateKeepsKinds(ctx.data, "assignee", VInt(assignee.value));
    ctx.UpdateData("assignee", VInt(assignee.value));
    ctx.SetState(CreateTaskDeadline);
  }

  /**
   * `manual_task_req`: the cleaned answer is stored as the deadline when it
   * parses as a date, and the form asks whether a file is required; any
   * other answer re-prompts with the form as it was.
   */
  method ManualTaskReq(ctx: FsmContext, text: string)
    requires ctx.Valid() && ctx.step == CreateTaskDeadline
    modifies ctx
    ensures ctx.Valid()
    ensures ParseIso(CleanDate(text)).None? ==> ctx.step == old(ctx.step) && ctx.data == old(ctx.data)
    ensures ParseIso(CleanDate(text)).Some? ==>
              ctx.step == CreateTaskReqFile && ctx.data == old(ctx.data)["deadline" := VStr(CleanDate(text))]
  {
    var clean := CleanDate(text);
    if ParseIso(clean).None? {
      return;
    }
    UpdateKeepsKinds(ctx.data, "deadline", VStr(clean));
    ctx.UpdateData("deadline", VStr(clean));
    ctx.SetState(CreateTaskReqFile);
  }

  /**
   * The deadline step keeps the answer as typed once it is cleaned: every
   * spelling of a date with `-`, `.` or `/` is stored as the padded text,
   * but an unpadded date such as "2024-1-5" is accepted and stored unpadded.
   */
  lemma DeadlineSpellings(d: Date)
    requires Valid(d)
    ensures ParseIso(CleanDate(Format(d))).Some? && CleanDate(Format(d)) == Format(d)
    ensures ParseIso(CleanDate(ReplaceChar(Format(d), '-', '.'))).Some?
            && CleanDate(ReplaceChar(Format(d), '-', '.')) == Format(d)
    ensures ParseIso(CleanDate(ReplaceChar(Format(d), '-', '/'))).Some?
            && CleanDate(ReplaceChar(Format(d), '-', '/')) == Format(d)
    ensures ParseIso(CleanDate("2024-1-5")).Some? && CleanDate("2024-1-5") == "2024-1-5"
  {
    CleanFormatted(d);
    var s := Format(d);
    CleanDateSeparators(s);
    assert CleanDate(s) == s by {
      FormatShape(d);
      FormatNoSeparators(d);
    }
    assert CleanDate("2024-1-5") == "2024-1-5";
    ParseUnpadded();
  }

  /** The answer that makes the task require a file. */
  const YesLabel := "Да"

  /**
   * `manual_task_fin`: the task is inserted with the collected title,
   * description, assignee and deadline, the author as creator, no release,
   * and a required file exactly when the answer is "Да"; the assignee is
   * told and the form is cleared.
   */
  method ManualTaskFin(ctx: FsmContext, db: Database, uid: int, text: string) returns (notes: seq<Note>)
    requires ctx.Valid() && ctx.step == CreateTaskReqFile && db.Valid()
    modifies ctx, db`tasks, db`nextTask
    ensures ctx.Valid() && db.Valid()
    ensures ctx.step == Idle && ctx.data == map[]
    ensures var d := old(ctx.data);
            var n := Store.NewTask(d["title"].s, d["desc"].s, d["assignee"].i, uid, None, d["deadline"].s, text == YesLabel);
            db.tasks == old(db.tasks) + [Row(old(db.nextTask), n)] && db.nextTask == old(db.nextTask) + 1
            && notes == [Note(d["assignee"].i, Assigned(d["title"].s))]
  {
    var d := ctx.data;
    var n := Store.NewTask(d["title"].s, d["desc"].s, d["assignee"].i, uid, None, d["deadline"].s, text == YesLabel);
    db.CreateTask(n);
    notes := [Note(d["assignee"].i, Assigned(d["title"].s))];
    ctx.Clear();
  }

  // ----------------------------------------------------------------- viewing

  const ActiveLabel := "📋 Активные задачи"
  const MineLabel := "📋 Мои задачи"
  const ActiveWord := "Активные"

  /** Of the two routed texts, only the founder's one holds the word the handler looks for. */
  lemma ActiveWordOnlyInActiveLabel()
    ensures Contains(ActiveLabel, ActiveWord) && !Contains(MineLabel, ActiveWord)
  {
    assert ActiveLabel[2..2 + |ActiveWord|] == ActiveWord;
    assert ActiveWord[0] !in MineLabel;
    WordInFirstOnly(ActiveLabel, MineLabel, ActiveWord, 2);
  }

  /** A word found at `k` in `a` whose first letter `b` lacks is in `a` and not in `b`. */
  lemma WordInFirstOnly(a: string, b: string, w: string, k: nat)
    requires |w| > 0 && k + |w| <= |a| && a[k..k + |w|] == w && w[0] !in b
    ensures Contains(a, w) && !Contains(b, w)
  {
    ContainsAt(a, w, k);
    if Contains(b, w) {
      ContainsHead(b, w);
    }
  }

  const FinishLabel := "✅ Выполнить"
  const RefuseLabel := "⛔️ Отказаться"
  const DeleteLabel := "🗑 Удалить"

  /**
   * The buttons under a task card: finish and refuse for the task's
   * assignee, delete for the founder.
   */
  function CardButtons(t: Task, uid: int, founder: bool): (kb: seq<Button>)
    ensures Button(FinishLabel, Token("fin", t.id)) in kb <==> t.assignedTo == uid
    ensures Button(RefuseLabel, Token("rej", t.id)) in kb <==> t.assignedTo == uid
    ensures Button(DeleteLabel, Token("admdel", t.id)) in kb <==> founder
    ensures |kb| == (if t.assignedTo == uid then 2 else 0) + (if founder then 1 else 0)
  {
    (if t.assignedTo == uid then [Button(FinishLabel, Token("fin", t.id)), Button(RefuseLabel, Token("rej", t.id))] else [])
    + (if founder then [Button(DeleteLabel, Token("admdel", t.id))] else [])
  }

  /** One card of `view_tasks`: the task, whether it carries the overdue icon, and its buttons. */
  datatype TaskCard = TaskCard(task: Task, overdue: bool, buttons: seq<Button>)

  /** The card of `t`: the overdue icon exactly for an overdue task, and the buttons for the viewer. */
  function Card(t: Task, uid: int, founder: bool): TaskCard
  {
    TaskCard(t, t.status == Status.Overdue, CardButtons(t, uid, founder))
  }

  /** The tasks `view_tasks` lists: every active task for the founder's button, the sender's own otherwise. */
  function ViewedTasks(users: seq<User>, ts: seq<Task>, uid: int, allTasks: bool): seq<Task>
    requires Registered(users, uid)
  {
    if FindUser(users, uid).value.role == "founder" && allTasks then ActiveTasks(ts) else ActiveTasksOf(ts, uid)
  }

  /**
   * `view_tasks`: one card per listed task, earliest deadline first; the
   * founder pressing "📋 Активные задачи" sees every task that is neither
   * done nor refused, anyone else (and the founder pressing "📋 Мои
   * задачи") those assigned to them.
   */
  method ViewTasks(db: Database, uid: int, text: string) returns (cards: seq<TaskCard>)
    requires Registered(db.users, uid)
    requires text == ActiveLabel || text == MineLabel
    ensures var ts := ViewedTasks(db.users, db.tasks, uid, text == ActiveLabel);
            var founder := FindUser(db.users, uid).value.role == "founder";
            |cards| == |ts| && forall i :: 0 <= i < |ts| ==> cards[i] == Card(ts[i], uid, founder)
  {
    var user := FindUser(db.users, uid).value;
    ActiveWordOnlyInActiveLabel();
    var ts;
    if user.role == "founder" && Contains(text, ActiveWord) {
      ts := ActiveTasks(db.tasks);
    } else {
      ts := ActiveTasksOf(db.tasks, uid);
    }
    var founder := user.role == "founder";
    cards := TaskCards(ts, t => Card(t, uid, founder));
  }

  /** The loop of `view_tasks`: the card of each task, in order. */
  method TaskCards(ts: seq<Task>, card: Task -> TaskCard) returns (cards: seq<TaskCard>)
    ensures |cards| == |ts| && forall i :: 0 <= i < |ts| ==> cards[i] == card(ts[i])
  {
    cards := [];
    var i := 0;
    while i < |ts|
      invariant 0 <= i <= |ts| && |cards| == i
      invariant forall k :: 0 <= k < i ==> cards[k] == card(ts[k])
    {
      cards := cards + [card(ts[i])];
      i := i + 1;
    }
  }

  /** A listed task is open, sorted by deadline, and, unless it is the founder's full list, the sender's. */
  lemma ViewedTasksShape(users: seq<User>, ts: seq<Task>, uid: int, allTasks: bool)
    requires Registered(users, uid)
    ensures var r := ViewedTasks(users, ts, uid, allTasks);
            SortedBy(r, DeadlineKey, false)
            && (forall i :: 0 <= i < |r| ==> r[i] in ts && IsActive(r[i]))
            && (FindUser(users, uid).value.role != "founder" || !allTasks ==>
                  forall i :: 0 <= i < |r| ==> r[i].assignedTo == uid)
  {
  }

  // ------------------------------------------------- deleting and refusing

  /**
   * `admin_del_task_ask` and `reject_ask`: the confirm button carries the
   * second piece of the callback data under the confirm head, the other
   * button dismisses; data with no second piece stops the handler.
   */
  function AskButtons(data: string, confirmHead: string, yes: string, no: string): (kb: Option<seq<Button>>)
  {
    var parts := Split(data, '_');
    if |parts| < 2 then None
    else Some([Button(yes, confirmHead + "_" + parts[1]), Button(no, "ignore_cb")])
  }

  function DeleteAsk(data: string): Option<seq<Button>>
  {
    AskButtons(data, "confdel", "Да, удалить", "Отмена")
  }

  function RefuseAsk(data: string): Option<seq<Button>>
  {
    AskButtons(data, "confrej", "Да, отказаться", "Вернуться")
  }

  /** The confirm button of a button `<head>_<id>` reads back the id, under the confirm head. */
  lemma AskRoundTrip(head: string, confirmHead: string, yes: string, no: string, id: int)
    requires '_' !in head && '_' !in confirmHead
    ensures AskButtons(Token(head, id), confirmHead, yes, no)
            == Some([Button(yes, Token(confirmHead, id)), Button(no, "ignore_cb")])
    ensures IntField(Token(confirmHead, id), 1) == Some(id)
  {
    SplitWhole(head, '_');
    TokenRoundTrip(head, id);
    SplitWhole(confirmHead, '_');
    TokenRoundTrip(confirmHead, id);
  }

  /** The card buttons lead back to their task: delete and refuse through their confirm buttons, finish directly. */
  lemma CardTokensRoundTrip(id: int)
    ensures DeleteAsk(Token("admdel", id)) == Some([Button("Да, удалить", Token("confdel", id)), Button("Отмена", "ignore_cb")])
    ensures RefuseAsk(Token("rej", id)) == Some([Button("Да, отказаться", Token("confrej", id)), Button("Вернуться", "ignore_cb")])
    ensures IntField(Token("confdel", id), 1) == Some(id) && IntField(Token("confrej", id), 1) == Some(id)
    ensures IntField(Token("fin", id), 1) == Some(id)
  {
    AskRoundTrip("admdel", "confdel", "Да, удалить", "Отмена", id);
    AskRoundTrip("rej", "confrej", "Да, отказаться", "Вернуться", id);
    SplitWhole("fin", '_');
    TokenRoundTrip("fin", id);
  }

  /**
   * `admin_del_task_confirm`: an existing task is announced to its assignee
   * as annulled and removed, every other task staying; a missing task
   * changes nothing, and neither does data with no integer second piece.
   */
  method AdminDeleteTaskConfirm(db: Database, data: string) returns (notes: seq<Note>)
    requires db.Valid()
    modifies db`tasks
    ensures db.Valid()
    ensures IntField(data, 1).None? || FindTask(old(db.tasks), IntField(data, 1).value).None? ==>
              db.tasks == old(db.tasks) && notes == []
    ensures IntField(data, 1).Some? && FindTask(old(db.tasks), IntField(data, 1).value).Some? ==>
              var t := FindTask(old(db.tasks), IntField(data, 1).value).value;
              notes == [Note(t.assignedTo, Annulled(t.title))]
              && db.tasks == Filter(old(db.tasks), (x: Task) => x.id != t.id)
  {
    var tid := IntField(data, 1);
    if tid.None? {
      return [];
    }
    var task := FindTask(db.tasks, tid.value);
    if task.None? {
      return [];
    }
    notes := [Note(task.value.assignedTo, Annulled(task.value.title))];
    db.DeleteTask(tid.value);
  }

  /** Deleting a task removes exactly the rows with its id. */
  lemma {:induction false} DeleteTaskExact(ts: seq<Task>, tid: int)
    ensures forall x :: x in Filter(ts, (t: Task) => t.id != tid) <==> x in ts && x.id != tid
    ensures FindTask(Filter(ts, (t: Task) => t.id != tid), tid).None?
  {
    var r := Filter(ts, (t: Task) => t.id != tid);
    forall x ensures x in r <==> x in ts && x.id != tid {
      FilterCount(ts, (t: Task) => t.id != tid, x);
    }
    assert forall i :: 0 <= i < |r| ==> r[i].id != tid by {
      forall i | 0 <= i < |r| ensures r[i].id != tid {
        assert r[i] in r;
      }
    }
  }

  /**
   * `reject_confirm`: an existing task becomes refused and every admin is
   * told; a missing task changes nothing and tells no one.
   */
  method RejectConfirm(db: Database, adminIds: seq<int>, data: string) returns (notes: seq<Note>)
    requires db.Valid()
    modifies db`tasks
    ensures db.Valid()
    ensures IntField(data, 1).None? || FindTask(old(db.tasks), IntField(data, 1).value).None? ==>
              db.tasks == old(db.tasks) && notes == []
    ensures IntField(data, 1).Some? && FindTask(old(db.tasks), IntField(data, 1).value).Some? ==>
              var t := FindTask(old(db.tasks), IntField(data, 1).value).value;
              notes == ToAll(adminIds, Refused(t.title))
              && db.tasks == WithStatus(old(db.tasks), t.id, Rejected, None, None)
  {
    var tid := IntField(data, 1);
    if tid.None? {
      return [];
    }
    var task := FindTask(db.tasks, tid.value);
    if task.None? {
      return [];
    }
    db.UpdateTaskStatus(tid.value, Rejected, None, None);
    notes := ToAll(adminIds, Refused(task.value.title));
  }

  /** Refusing keeps the task's file and comment: only the status changes, on that row only. */
  lemma RefuseOnlyStatus(ts: seq<Task>, tid: int)
    ensures var r := WithStatus(ts, tid, Rejected, None, None);
            |r| == |ts|
            && (forall i :: 0 <= i < |ts| && ts[i].id == tid ==> r[i] == ts[i].(status := Rejected))
            && (forall i :: 0 <= i < |ts| && ts[i].id != tid ==> r[i] == ts[i])
  {
  }

  // ----------------------------------------------------------------- history

  /** How a history entry shows a task's file. */
  datatype FileMark = NoFileMark | TelegramMark | DiskMark(url: string)

  /** A file value holding "tg:" is a Telegram reference, any other truthy one a Disk link. */
  function FileMarkOf(fileUrl: Option<string>): FileMark
  {
    if !Truthy(fileUrl) then NoFileMark
    else if Contains(fileUrl.value, "tg:") then TelegramMark
    else DiskMark(fileUrl.value)
  }

  /** The tasks `history` shows: the last twenty finished ones, the founder's over everybody. */
  function HistoryTasks(users: seq<User>, ts: seq<Task>, uid: int): seq<Task>
    requires Registered(users, uid)
  {
    History(ts, if FindUser(users, uid).value.role == "founder" then None else Some(uid))
  }

  /** `history`: one entry per shown task, with the mark of its file. */
  method HistoryView(db: Database, uid: int) returns (entries: seq<(Task, FileMark)>)
    requires Registered(db.users, uid)
    ensures var ts := HistoryTasks(db.users, db.tasks, uid);
            |entries| == |ts| && forall i :: 0 <= i < |ts| ==> entries[i] == (ts[i], FileMarkOf(ts[i].fileUrl))
  {
    var ts := HistoryTasks(db.users, db.tasks, uid);
    entries := [];
    var i := 0;
    while i < |ts|
      invariant 0 <= i <= |ts| && |entries| == i
      invariant forall k :: 0 <= k < i ==> entries[k] == (ts[k], FileMarkOf(ts[k].fileUrl))
    {
      entries := entries + [(ts[i], FileMarkOf(ts[i].fileUrl))];
      i := i + 1;
    }
  }

  /**
   * The history shows the twenty finished tasks with the latest deadlines
   * (all of them when there are fewer), latest first: everybody's for the
   * founder, the sender's own for anyone else.
   */
  lemma HistoryShape(users: seq<User>, ts: seq<Task>, uid: int)
    requires Registered(users, uid)
    ensures var r := HistoryTasks(users, ts, uid);
            var done := DoneTasks(ts, if FindUser(users, uid).value.role == "founder" then None else Some(uid));
            |r| == (if |done| < 20 then |done| else 20) && SortedBy(r, DeadlineKey, true)
            && multiset(r) <= multiset(done)
            && (forall t :: t in multiset(done) - multiset(r) ==> forall j :: 0 <= j < |r| ==> !Less(r[j].deadline, t.deadline))
    ensures var r := HistoryTasks(users, ts, uid);
            (forall i :: 0 <= i < |r| ==> r[i] in ts && r[i].status == Done)
            && (FindUser(users, uid).value.role != "founder" ==> forall i :: 0 <= i < |r| ==> r[i].assignedTo == uid)
  {
  }

  // --------------------------------------------------------------- finishing

  /** What a message in the file step carries. */
  datatype Attachment = NoAttachment | Document(fileId: string) | Photo(fileId: string)

  /** `f"tg:{ftype}:{fid}"`, the file value kept when the Disk upload fails. */
  function FileRef(kind: string, fid: string): string
  {
    "tg:" + kind + ":" + fid
  }

  /** The Disk link when the upload gave one, the Telegram reference otherwise. */
  function FileValue(a: Attachment, uploaded: Option<string>): string
    requires !a.NoAttachment?
  {
    if Truthy(uploaded) then uploaded.value
    else FileRef(if a.Document? then "doc" else "photo", a.fileId)
  }

  /** `d.get('f_val')`. */
  function FVal(d: Data): Option<string>
  {
    if "f_val" in d && d["f_val"].VStr? then Some(d["f_val"].s) else None
  }

  /**
   * The file the creator is told about: a Telegram reference is cut by
   * `split(":", 2)` into the kind and the Telegram file id, any other
   * truthy value is a Disk link. A reference that does not cut into three
   * pieces raises after the notice is sent, which then carries no file.
   */
  function CompletedFile(f: Option<string>): Attached
  {
    if Truthy(f) && Contains(f.value, "tg:") then
      var parts := SplitMax(f.value, ':', 2);
      if |parts| == 3 then TelegramFile(parts[1], parts[2]) else NoFile
    else if Truthy(f) then DiskLink(f.value)
    else NoFile
  }

  /**
   * A Telegram reference reads back as its kind and file id, whatever the
   * id holds, and the history marks it as a Telegram file.
   */
  lemma FileRefRoundTrip(kind: string, fid: string)
    requires ':' !in kind
    ensures SplitMax(FileRef(kind, fid), ':', 2) == ["tg", kind, fid]
    ensures CompletedFile(Some(FileRef(kind, fid))) == TelegramFile(kind, fid)
    ensures FileMarkOf(Some(FileRef(kind, fid))) == TelegramMark
  {
    var s := FileRef(kind, fid);
    assert s[..3] == "tg:";
    ContainsAt(s, "tg:", 0);
    IndexOfAt(s, ':', 2);
    assert s[..2] == "tg";
    var rest := s[3..];
    assert rest == kind + ":" + fid;
    assert rest[|kind|] == ':' && rest[..|kind|] == kind;
    IndexOfAt(rest, ':', |kind|);
    assert rest[|kind| + 1..] == fid;
    assert SplitMax(rest, ':', 1) == [kind] + SplitMax(fid, ':', 0);
  }

  /** The fields `fin_start` stores; the rest of the form data stays. */
  function FinStartData(d: Data, t: Task): Data
  {
    d["tid" := VInt(t.id)]["creator" := VInt(t.createdBy)]["title" := VStr(t.title)]
  }

  /** The stored fields make the form ready for either finishing step. */
  lemma FinStartDataReady(d: Data, t: Task)
    requires WellKinded(d)
    ensures WellKinded(FinStartData(d, t)) && WellKinded(FinStartFreshData(d, t))
    ensures Ready(FinishTaskFile, FinStartData(d, t)) && Ready(FinishTaskComment, FinStartData(d, t))
    ensures Ready(FinishTaskFile, FinStartFreshData(d, t)) && Ready(FinishTaskComment, FinStartFreshData(d, t))
  {
  }

  /** Whether `fin_start` goes ahead for the task the data names. */
  predicate Finishable(ts: seq<Task>, data: string)
  {
    IntField(data, 1).Some? && FindTask(ts, IntField(data, 1).value).Some?
    && FindTask(ts, IntField(data, 1).value).value.status != Done
  }

  /**
   * `fin_start`, answering the button whatever step the sender's form is
   * at: a missing or finished task is refused with the form as it was;
   * otherwise the task's id, creator and title are stored and the form
   * goes to the file step when the task requires a file, to the comment
   * step when it does not.
   */
  method FinStart(ctx: FsmContext, db: Database, data: string)
    requires ctx.Valid()
    modifies ctx
    ensures ctx.Valid()
    ensures !Finishable(db.tasks, data) ==> ctx.step == old(ctx.step) && ctx.data == old(ctx.data)
    ensures Finishable(db.tasks, data) ==>
              var t := FindTask(db.tasks, IntField(data, 1).value).value;
              ctx.data == FinStartData(old(ctx.data), t)
              && ctx.step == (if t.requiresFile then FinishTaskFile else FinishTaskComment)
  {
    var tid := IntField(data, 1);
    if tid.None? {
      return;
    }
    var task := FindTask(db.tasks, tid.value);
    if task.None? || task.value.status == Done {
      return;
    }
    var t := task.value;
    FinStartDataReady(ctx.data, t);
    ctx.data := FinStartData(ctx.data, t);
    if t.requiresFile {
      ctx.SetState(FinishTaskFile);
    } else {
      ctx.SetState(FinishTaskComment);
    }
  }

  /**
   * `fin_file`: the cancel text clears the form; a message with neither a
   * document nor a photo re-prompts with the form as it was; otherwise the
   * file value (the Disk link of the upload, or the Telegram reference when
   * the upload gave none) is stored and the form asks for the comment.
   */
  method FinFile(ctx: FsmContext, text: Option<string>, a: Attachment, uploaded: Option<string>)
    requires ctx.Valid() && ctx.step == FinishTaskFile
    modifies ctx
    ensures ctx.Valid()
    ensures text == Some(CancelLabel) ==> ctx.step == Idle && ctx.data == map[]
    ensures text != Some(CancelLabel) && a.NoAttachment? ==> ctx.step == old(ctx.step) && ctx.data == old(ctx.data)
    ensures text != Some(CancelLabel) && !a.NoAttachment? ==>
              ctx.step == FinishTaskComment && ctx.data == old(ctx.data)["f_val" := VStr(FileValue(a, uploaded))]
  {
    if text == Some(CancelLabel) {
      ctx.Clear();
      return;
    }
    if a.NoAttachment? {
      return;
    }
    ctx.UpdateData("f_val", VStr(FileValue(a, uploaded)));
    ctx.SetState(FinishTaskComment);
  }

  /**
   * `fin_commit`: the cancel text clears the form and writes nothing;
   * any other message marks the task done with the stored file value and
   * the message text as comment (so with neither truthy only the status
   * changes), tells the creator, and clears the form.
   */
  method FinCommit(ctx: FsmContext, db: Database, text: Option<string>) returns (notes: seq<Note>)
    requires ctx.Valid() && ctx.step == FinishTaskComment && db.Valid()
    modifies ctx, db`tasks
    ensures ctx.Valid() && db.Valid()
    ensures ctx.step == Idle && ctx.data == map[]
    ensures text == Some(CancelLabel) ==> db.tasks == old(db.tasks) && notes == []
    ensures text != Some(CancelLabel) ==>
              var d := old(ctx.data);
              db.tasks == WithStatus(old(db.tasks), d["tid"].i, Done, FVal(d), text)
              && notes == [Note(d["creator"].i, Completed(d["title"].s, CompletedFile(FVal(d))))]
  {
    if text == Some(CancelLabel) {
      ctx.Clear();
      return [];
    }
    notes := CommitTask(db, ctx.data, text);
    ctx.Clear();
  }

  /** The write and the notice of `fin_commit` for the answers `d` of the form. */
  method CommitTask(db: Database, d: Data, text: Option<string>) returns (notes: seq<Note>)
    requires IsInt(d, "tid") && IsInt(d, "creator") && IsStr(d, "title") && db.Valid()
    modifies db`tasks
    ensures db.Valid()
    ensures db.tasks == WithStatus(old(db.tasks), d["tid"].i, Done, FVal(d), text)
    ensures notes == [Note(d["creator"].i, Completed(d["title"].s, CompletedFile(FVal(d))))]
  {
    db.UpdateTaskStatus(d["tid"].i, Done, FVal(d), text);
    notes := [Note(d["creator"].i, Completed(d["title"].s, CompletedFile(FVal(d))))];
  }

  /** A commit with a comment writes the file value and the comment over the task's old ones. */
  lemma CommitOverwrites(ts: seq<Task>, tid: int, f: Option<string>, comment: string)
    requires comment != ""
    ensures var r := WithStatus(ts, tid, Done, f, Some(comment));
            forall i :: 0 <= i < |ts| && ts[i].id == tid ==>
              r[i].status == Done && r[i].fileUrl == f && r[i].comment == Some(comment)
  {
  }

  /**
   * As written, `fin_start` keeps a file value stored by an interrupted
   * file step: a file uploaded for task 1, whose comment step was left by
   * pressing finish on task 2 (which needs no file), is written to task 2.
   */
  lemma StaleFileReachesOtherTask()
    ensures var t1 := Task(1, "a", "", 7, 8, None, None, "2024-01-01", Pending, true, None, None);
            var t2 := Task(2, "b", "", 7, 8, None, None, "2024-01-01", Pending, false, None, None);
            var d1 := FinStartData(map[], t1)["f_val" := VStr("https://disk/1")];
            var d2 := FinStartData(d1, t2);
            var r := WithStatus([t1, t2], d2["tid"].i, Done, FVal(d2), Some("ok"));
            !t2.requiresFile && d2["tid"] == VInt(2) && r[1].fileUrl == Some("https://disk/1")
  {
    var t1 := Task(1, "a", "", 7, 8, None, None, "2024-01-01", Pending, true, None, None);
    var t2 := Task(2, "b", "", 7, 8, None, None, "2024-01-01", Pending, false, None, None);
    var d1 := FinStartData(map[], t1)["f_val" := VStr("https://disk/1")];
    var d2 := FinStartData(d1, t2);
    assert FVal(d2) == Some("https://disk/1");
    assert Truthy(Some("ok"));
  }

  /** The corrected start of the finish form: it forgets any file value before storing the task's fields. */
  function FinStartFreshData(d: Data, t: Task): Data
  {
    (d - {"f_val"})["tid" := VInt(t.id)]["creator" := VInt(t.createdBy)]["title" := VStr(t.title)]
  }

  /**
   * With the correction, the file a commit writes is the one uploaded for
   * that task in this run of the form: none when the file step was not
   * visited, the file step's value when it was.
   */
  lemma FreshStartKeepsFilesApart(d: Data, t: Task, a: Attachment, uploaded: Option<string>)
    requires !a.NoAttachment?
    ensures FVal(FinStartFreshData(d, t)) == None
    ensures FVal(FinStartFreshData(d, t)["f_val" := VStr(FileValue(a, uploaded))]) == Some(FileValue(a, uploaded))
    ensures forall k :: k in FinStartData(d, t) && k != "f_val" ==>
              k in FinStartFreshData(d, t) && FinStartFreshData(d, t)[k] == FinStartData(d, t)[k]
  {
  }

  /** `fin_start` with the correction: as `FinStart`, but the form never carries an earlier file value. */
  method FinStartCorrected(ctx: FsmContext, db: Database, data: string)
    requires ctx.Valid()
    modifies ctx
    ensures ctx.Valid()
    ensures !Finishable(db.tasks, data) ==> ctx.step == old(ctx.step) && ctx.data == old(ctx.data)
    ensures Finishable(db.tasks, data) ==>
              var t := FindTask(db.tasks, IntField(data, 1).value).value;
              ctx.data == FinStartFreshData(old(ctx.data), t) && FVal(ctx.data) == None
              && ctx.step == (if t.requiresFile then FinishTaskFile else FinishTaskComment)
  {
    var tid := IntField(data, 1);
    if tid.None? {
      return;
    }
    var task := FindTask(db.tasks, tid.value);
    if task.None? || task.value.status == Done {
      return;
    }
    var t := task.value;
    FinStartDataReady(ctx.data, t);
    ctx.data := FinStartFreshData(ctx.data, t);
    if t.requiresFile {
      ctx.SetState(FinishTaskFile);
    } else {
      ctx.SetState(FinishTaskComment);
    }
  }
}
