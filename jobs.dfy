/**
 * bot/jobs.py: the scheduled sweeps of the modular bot, run with today's
 * date: marking and announcing overdue tasks, warning about tasks due
 * tomorrow, prompting managers about unsigned contracts; and the callback
 * that records a signed contract.
 */
module Jobs {
  import opened Wrappers
  import opened Text
  import opened Ordering
  import opened Dates
  import opened Store
  import opened Keyboards
  import opened Tokens
  import opened Notices
  import Releases

  // ------------------------------------------------------------ overdue sweep

  /** One row after the sweep: a selected row is overdue, any other as it was. */
  function Swept(t: Task, today: string): Task
  {
    if OverdueCandidate(t, today) then t.(status := Status.Overdue) else t
  }

  /** The task table after `job_check_overdue`. */
  function SweptTable(ts: seq<Task>, today: string): (r: seq<Task>)
    ensures |r| == |ts| && forall i :: 0 <= i < |ts| ==> r[i] == Swept(ts[i], today)
  {
    seq(|ts|, i requires 0 <= i < |ts| => Swept(ts[i], today))
  }

  /** The overdue notice of each task, in order. */
  function LateNotes(ts: seq<Task>): (r: seq<Note>)
    ensures |r| == |ts| && forall i :: 0 <= i < |ts| ==> r[i] == Note(ts[i].assignedTo, Late(ts[i].title))
  {
    seq(|ts|, i requires 0 <= i < |ts| => Note(ts[i].assignedTo, Late(ts[i].title)))
  }

  function IdSet(ts: seq<Task>): set<int>
  {
    set k | 0 <= k < |ts| :: ts[k].id
  }

  /** The table with the rows whose ids are in `ids` marked overdue. */
  function MarkedIds(ts: seq<Task>, ids: set<int>): seq<Task>
  {
    seq(|ts|, j requires 0 <= j < |ts| => if ts[j].id in ids then ts[j].(status := Status.Overdue) else ts[j])
  }

  lemma MarkStep(ts: seq<Task>, ids: set<int>, id: int)
    ensures WithStatus(MarkedIds(ts, ids), id, Status.Overdue, None, None) == MarkedIds(ts, ids + {id})
  {
    var a := WithStatus(MarkedIds(ts, ids), id, Status.Overdue, None, None);
    var b := MarkedIds(ts, ids + {id});
    assert |a| == |b|;
    forall j | 0 <= j < |a| ensures a[j] == b[j] {
    }
  }

  /** With unique ids, the row of a task already overdue needs no mark. */
  lemma MarkSkip(ts: seq<Task>, ids: set<int>, t: Task)
    requires IdsIncreasing(ts, TaskId) && t in ts && t.status == Status.Overdue
    ensures MarkedIds(ts, ids) == MarkedIds(ts, ids + {t.id})
  {
    var k :| 0 <= k < |ts| && ts[k] == t;
    forall j | 0 <= j < |ts| && ts[j].id == t.id ensures ts[j] == t {
      IdsUnique(ts, TaskId, j, k);
    }
    var a, b := MarkedIds(ts, ids), MarkedIds(ts, ids + {t.id});
    forall j | 0 <= j < |ts| ensures a[j] == b[j] {
    }
  }

  /** With unique ids, marking the ids of the selected rows marks exactly the selected rows. */
  lemma MarkedAllIsSwept(ts: seq<Task>, today: string)
    requires IdsIncreasing(ts, TaskId)
    ensures MarkedIds(ts, IdSet(OverdueTasks(ts, today))) == SweptTable(ts, today)
  {
    var sel := OverdueTasks(ts, today);
    var a, b := MarkedIds(ts, IdSet(sel)), SweptTable(ts, today);
    forall j | 0 <= j < |ts| ensures a[j] == b[j] {
      if ts[j].id in IdSet(sel) {
        var k :| 0 <= k < |sel| && sel[k].id == ts[j].id;
        var m :| 0 <= m < |ts| && ts[m] == sel[k];
        IdsUnique(ts, TaskId, j, m);
      }
    }
  }

  lemma IdSetAppend(s: seq<Task>, t: Task)
    ensures IdSet(s + [t]) == IdSet(s) + {t.id}
  {
    var u := s + [t];
    assert forall k :: 0 <= k < |s| ==> u[k] == s[k];
    assert u[|s|] == t;
  }

  /** One row of the sweep's loop: mark it unless it is overdue already. */
  method MarkOne(db: Database, t: Task, ghost table: seq<Task>, ghost ids: set<int>)
    requires db.Valid() && db.tasks == MarkedIds(table, ids)
    requires IdsIncreasing(table, TaskId) && t in table
    modifies db`tasks
    ensures db.Valid() && db.tasks == MarkedIds(table, ids + {t.id})
  {
    if t.status != Status.Overdue {
      MarkStep(table, ids, t.id);
      db.MarkTaskOverdue(t.id);
    } else {
      MarkSkip(table, ids, t);
    }
  }

  /** The sweep's loop, for today's date as text. */
  method Sweep(db: Database, today: string) returns (notes: seq<Note>)
    requires db.Valid()
    modifies db`tasks
    ensures db.Valid()
    ensures db.tasks == SweptTable(old(db.tasks), today)
    ensures notes == LateNotes(OverdueTasks(old(db.tasks), today))
  {
    var ts := OverdueTasks(db.tasks, today);
    ghost var table := db.tasks;
    MarkEach(db, ts, table);
    MarkedAllIsSwept(table, today);
    notes := TellEach(ts);
  }

  /** Marks the row of each given task overdue. */
  method MarkEach(db: Database, ts: seq<Task>, ghost table: seq<Task>)
    requires db.Valid() && db.tasks == table && forall i :: 0 <= i < |ts| ==> ts[i] in table
    modifies db`tasks
    ensures db.Valid() && db.tasks == MarkedIds(table, IdSet(ts))
  {
    assert IdsIncreasing(table, TaskId);
    assert MarkedIds(table, {}) == table;
    var i := 0;
    while i < |ts|
      invariant 0 <= i <= |ts|
      invariant db.Valid() && db.tasks == MarkedIds(table, IdSet(ts[..i]))
    {
      assert ts[..i + 1] == ts[..i] + [ts[i]];
      IdSetAppend(ts[..i], ts[i]);
      MarkOne(db, ts[i], table, IdSet(ts[..i]));
      i := i + 1;
    }
    assert ts[..i] == ts;
  }

  /** The overdue notice of each given task, in order. */
  method TellEach(ts: seq<Task>) returns (notes: seq<Note>)
    ensures notes == LateNotes(ts)
  {
    notes := [];
    var i := 0;
    while i < |ts|
      invariant 0 <= i <= |ts|
      invariant |notes| == i && forall k :: 0 <= k < i ==> notes[k] == Note(ts[k].assignedTo, Late(ts[k].title))
    {
      notes := notes + [Note(ts[i].assignedTo, Late(ts[i].title))];
      i := i + 1;
    }
  }

  /**
   * `job_check_overdue`: every task whose deadline text is below today's
   * and which is not done is marked overdue (a refused one included) and
   * its assignee is told, whether or not it was overdue already.
   */
  method JobCheckOverdue(db: Database, today: Date) returns (notes: seq<Note>)
    requires db.Valid() && Valid(today)
    modifies db`tasks
    ensures db.Valid()
    ensures db.tasks == SweptTable(old(db.tasks), Format(today))
    ensures notes == LateNotes(OverdueTasks(old(db.tasks), Format(today)))
  {
    notes := Sweep(db, Format(today));
  }

  /**
   * After the sweep every selected task is overdue, a refused one
   * included; a done task, and a task whose deadline text is not below
   * today's, is left as it was; nothing but the status changes.
   */
  lemma SweepEffect(ts: seq<Task>, today: string)
    ensures var r := SweptTable(ts, today);
            (forall i :: 0 <= i < |ts| && OverdueCandidate(ts[i], today) ==> r[i] == ts[i].(status := Status.Overdue))
            && (forall i :: 0 <= i < |ts| && ts[i].status == Done ==> r[i] == ts[i])
            && (forall i :: 0 <= i < |ts| && !Less(ts[i].deadline, today) ==> r[i] == ts[i])
            && (forall i :: 0 <= i < |ts| && ts[i].status == Rejected && Less(ts[i].deadline, today) ==> r[i].status == Status.Overdue)
  {
  }

  /** A second run of the sweep changes no status. */
  lemma SweepIdempotent(ts: seq<Task>, today: string)
    ensures SweptTable(SweptTable(ts, today), today) == SweptTable(ts, today)
  {
  }

  lemma SweptConcat(a: seq<Task>, b: seq<Task>, today: string)
    ensures SweptTable(a + b, today) == SweptTable(a, today) + SweptTable(b, today)
  {
  }

  /** The selection, one row at a time. */
  lemma OverdueCons(ts: seq<Task>, today: string)
    requires |ts| > 0
    ensures OverdueTasks(ts, today) == (if OverdueCandidate(ts[0], today) then [ts[0]] else []) + OverdueTasks(ts[1..], today)
  {
  }

  /** The swept table, one row at a time. */
  lemma SweptCons(ts: seq<Task>, today: string)
    requires |ts| > 0
    ensures SweptTable(ts, today)[0] == Swept(ts[0], today)
    ensures SweptTable(ts, today)[1..] == SweptTable(ts[1..], today)
  {
  }

  lemma {:induction false} SweepSelectsAgain(ts: seq<Task>, today: string)
    ensures OverdueTasks(SweptTable(ts, today), today) == SweptTable(OverdueTasks(ts, today), today)
    decreases |ts|
  {
    if |ts| > 0 {
      var s := SweptTable(ts, today);
      SweptCons(ts, today);
      SweepSelectsAgain(ts[1..], today);
      var head := if OverdueCandidate(ts[0], today) then [ts[0]] else [];
      OverdueCons(s, today);
      OverdueCons(ts, today);
      assert OverdueCandidate(s[0], today) == OverdueCandidate(ts[0], today);
      assert (if OverdueCandidate(s[0], today) then [s[0]] else []) == SweptTable(head, today);
      SweptConcat(head, OverdueTasks(ts[1..], today), today);
    }
  }

  /**
   * The sweep does not remember whom it has told: right after a run the
   * same tasks are selected again and every assignee is told again.
   */
  lemma SweepRenotifies(ts: seq<Task>, today: string)
    ensures LateNotes(OverdueTasks(SweptTable(ts, today), today)) == LateNotes(OverdueTasks(ts, today))
    ensures |OverdueTasks(SweptTable(ts, today), today)| == |OverdueTasks(ts, today)|
  {
    SweepSelectsAgain(ts, today);
  }

  /**
   * The selection compares deadline texts, so a deadline stored unpadded
   * is selected late: a task due "2024-1-5" is not selected on
   * "2024-01-10", five days after that date, nor on "2024-09-30", and is
   * first selected on "2024-10-01", where '-' sorts below '0'. These days
   * hold under code point order (the "C" collation); another collation
   * weighs '-' differently and moves them.
   */
  lemma UnpaddedDeadlineLateOverdue(t: Task)
    requires t.deadline == "2024-1-5" && t.status != Done
    ensures ParseIso(t.deadline) == Some(Date(2024, 1, 5)) && ParseIso("2024-01-10") == Some(Date(2024, 1, 10))
    ensures Before(Date(2024, 1, 5), Date(2024, 1, 10))
    ensures !OverdueCandidate(t, "2024-01-10")
    ensures !OverdueCandidate(t, "2024-09-30") && OverdueCandidate(t, "2024-10-01")
  {
    UnpaddedSortsOutOfOrder();
    if Less("2024-1-5", "2024-01-10") {
      LessTransitive("2024-1-5", "2024-01-10", "2024-1-5");
      LessIrreflexive("2024-1-5");
    }
    UnpaddedBetween("2024-1-5", "2024-09-30", "2024-10-01");
  }

  /** "2024-1-5" sorts after "2024-09-30" and before "2024-10-01". */
  lemma UnpaddedBetween(d: string, before: string, after: string)
    requires d == "2024-1-5" && before == "2024-09-30" && after == "2024-10-01"
    ensures !Less(d, before) && Less(d, after)
  {
    assert d == "2024-1" + ['-'] + "5" && after == "2024-1" + ['0'] + "-01";
    LessAfterCommon("2024-1", '-', "5", '0', "-01");
    assert before == "2024-" + ['0'] + "9-30" && d == "2024-" + ['1'] + "-5";
    LessAfterCommon("2024-", '0', "9-30", '1', "-5");
    LessTrichotomy(d, before);
  }

  /** The tasks of a new release are not selected by a sweep on the day they are created. */
  lemma GeneratedNotOverdue(g: Releases.Gen, specs: seq<Releases.Spec>, start: int)
    requires Releases.GenOk(g)
    ensures var rows := Releases.Rows(start, Releases.Plan(Releases.StepOf(g), specs));
            forall i :: 0 <= i < |rows| ==> !OverdueCandidate(rows[i], Format(g.today))
  {
    var p := Releases.Plan(Releases.StepOf(g), specs);
    Releases.GeneratedTasks(g, specs);
    forall i | 0 <= i < |p| ensures Releases.Rows(start, p)[i].deadline == p[i].deadline {
      Releases.RowsAt(start, p, i);
    }
  }

  // ---------------------------------------------------------- deadline alerts

  /** The warning of each task, in order. */
  function DueNotes(ts: seq<Task>): (r: seq<Note>)
    ensures |r| == |ts| && forall i :: 0 <= i < |ts| ==> r[i] == Note(ts[i].assignedTo, DueSoon(ts[i].title))
  {
    seq(|ts|, i requires 0 <= i < |ts| => Note(ts[i].assignedTo, DueSoon(ts[i].title)))
  }

  /**
   * `job_deadline_alerts`: the assignee of every task due tomorrow that is
   * not done is warned, and only they; no row changes. On the last day
   * the calendar holds, tomorrow overflows and the job stops before
   * warning anyone.
   */
  method JobDeadlineAlerts(db: Database, today: Date) returns (notes: seq<Note>)
    requires Valid(today)
    ensures AddDays(today, 1).None? ==> notes == []
    ensures AddDays(today, 1).Some? ==>
              var due := Format(AddDays(today, 1).value);
              notes == DueNotes(TasksDueOn(db.tasks, due))
              && (forall t :: t in db.tasks && t.deadline == due && t.status != Done ==> Note(t.assignedTo, DueSoon(t.title)) in notes)
              && (forall n :: n in notes ==> Warranted(db.tasks, due, n))
  {
    var tomorrow := AddDays(today, 1);
    if tomorrow.None? {
      return [];
    }
    var due := Format(tomorrow.value);
    notes := Alerts(db.tasks, due);
    DueNotesExact(db.tasks, due);
  }

  /** The alerts' loop, for tomorrow's date as text. */
  method Alerts(tasks: seq<Task>, due: string) returns (notes: seq<Note>)
    ensures notes == DueNotes(TasksDueOn(tasks, due))
  {
    notes := WarnEach(TasksDueOn(tasks, due));
  }

  /** One warning per task, in order. */
  method WarnEach(ts: seq<Task>) returns (notes: seq<Note>)
    ensures notes == DueNotes(ts)
  {
    notes := [];
    var i := 0;
    while i < |ts|
      invariant 0 <= i <= |ts|
      invariant |notes| == i && forall k :: 0 <= k < i ==> notes[k] == Note(ts[k].assignedTo, DueSoon(ts[k].title))
    {
      notes := notes + [Note(ts[i].assignedTo, DueSoon(ts[i].title))];
      i := i + 1;
    }
  }

  /** A warning that some task due on the day and not done calls for. */
  predicate Warranted(tasks: seq<Task>, due: string, n: Note)
  {
    exists t :: t in tasks && t.deadline == due && t.status != Done && n == Note(t.assignedTo, DueSoon(t.title))
  }

  /** The alerts go to the assignee of every task due on the day and not done, and to no one else. */
  lemma DueNotesExact(tasks: seq<Task>, due: string)
    ensures forall t :: t in tasks && t.deadline == due && t.status != Done ==>
              Note(t.assignedTo, DueSoon(t.title)) in DueNotes(TasksDueOn(tasks, due))
    ensures forall n :: n in DueNotes(TasksDueOn(tasks, due)) ==> Warranted(tasks, due, n)
  {
    var ts := TasksDueOn(tasks, due);
    var notes := DueNotes(ts);
    forall t | t in tasks && t.deadline == due && t.status != Done
      ensures Note(t.assignedTo, DueSoon(t.title)) in notes
    {
      var k :| 0 <= k < |tasks| && tasks[k] == t;
      assert t in ts;
      var j :| 0 <= j < |ts| && ts[j] == t;
      assert notes[j] == Note(t.assignedTo, DueSoon(t.title));
    }
    forall n | n in notes ensures Warranted(tasks, due, n) {
      var i :| 0 <= i < |notes| && notes[i] == n;
      assert ts[i] in tasks;
    }
  }

  // --------------------------------------------------------------- onboarding

  /** The buttons of the contract prompt: `onb_cont_<id>` records the contract, "ign" dismisses. */
  function OnboardingButtons(a: Artist): seq<Button>
  {
    [Button("✅ Да", Token("onb_cont", a.id)), Button("Позже", "ign")]
  }

  /** The prompt of each artist, to the artist's manager, in order. */
  function PromptNotes(artists: seq<Artist>): (r: seq<Note>)
    ensures |r| == |artists| && forall i :: 0 <= i < |artists| ==> r[i] == Note(artists[i].managerId, ContractPrompt(artists[i].id))
  {
    seq(|artists|, i requires 0 <= i < |artists| => Note(artists[i].managerId, ContractPrompt(artists[i].id)))
  }

  /**
   * `job_onboarding`: the manager of every artist without a signed
   * contract is asked about it, once per such artist, and no one else;
   * no row changes.
   */
  method JobOnboarding(db: Database) returns (notes: seq<Note>)
    ensures notes == PromptNotes(UnsignedArtists(db.artists))
    ensures forall a :: a in db.artists && !a.contract ==> Note(a.managerId, ContractPrompt(a.id)) in notes
    ensures forall n :: n in notes ==> exists a :: a in db.artists && !a.contract && n == Note(a.managerId, ContractPrompt(a.id))
  {
    var artists := UnsignedArtists(db.artists);
    notes := [];
    var i := 0;
    while i < |artists|
      invariant 0 <= i <= |artists|
      invariant |notes| == i && forall k :: 0 <= k < i ==> notes[k] == Note(artists[k].managerId, ContractPrompt(artists[k].id))
    {
      notes := notes + [Note(artists[i].managerId, ContractPrompt(artists[i].id))];
      i := i + 1;
    }
    assert notes == PromptNotes(artists);
    UnsignedPrompts(db.artists, notes);
  }

  /** The prompts go to the manager of every unsigned artist, and only to them. */
  lemma UnsignedPrompts(all: seq<Artist>, notes: seq<Note>)
    requires notes == PromptNotes(UnsignedArtists(all))
    ensures forall a :: a in all && !a.contract ==> Note(a.managerId, ContractPrompt(a.id)) in notes
    ensures forall n :: n in notes ==> exists a :: a in all && !a.contract && n == Note(a.managerId, ContractPrompt(a.id))
  {
    var artists := UnsignedArtists(all);
    forall a | a in all && !a.contract ensures Note(a.managerId, ContractPrompt(a.id)) in notes {
      var k :| 0 <= k < |all| && all[k] == a;
      var j :| 0 <= j < |artists| && artists[j] == a;
      assert notes[j] == Note(a.managerId, ContractPrompt(a.id));
    }
    forall n | n in notes
      ensures exists a :: a in all && !a.contract && n == Note(a.managerId, ContractPrompt(a.id))
    {
      var i :| 0 <= i < |notes| && notes[i] == n;
      var a := artists[i];
      assert a in all && !a.contract && n == Note(a.managerId, ContractPrompt(a.id));
    }
  }

  /** `{'cont': 'flag_contract'}.get(data.split("_")[1])`; data with no second piece raises, which is `None` here too. */
  function OnbColumn(data: string): Option<Flag>
  {
    var parts := Split(data, '_');
    if |parts| >= 2 && parts[1] == "cont" then Some(Contract) else None
  }

  /**
   * `onb_act`: `onb_cont_<id>` sets that artist's contract flag and
   * nothing else; any other type word, or an id that is not an integer,
   * changes nothing.
   */
  method OnbAct(db: Database, data: string) returns (updated: bool)
    requires db.Valid()
    modifies db`artists
    ensures db.Valid()
    ensures updated <==> OnbColumn(data).Some? && IntField(data, 2).Some?
    ensures updated ==> db.artists == WithArtistFlag(old(db.artists), IntField(data, 2).value, Contract, true)
    ensures !updated ==> db.artists == old(db.artists)
  {
    var col := OnbColumn(data);
    if col.None? {
      return false;
    }
    var aid := IntField(data, 2);
    if aid.None? {
      return false;
    }
    db.UpdateArtistFlag(aid.value, col.value, true);
    updated := true;
  }

  /** The prompt's button records the contract of the artist it was made for. */
  lemma OnbContRoundTrip(a: Artist)
    ensures OnbColumn(OnboardingButtons(a)[0].data) == Some(Contract)
    ensures IntField(OnboardingButtons(a)[0].data, 2) == Some(a.id)
  {
    OnbContWords();
    TwoWordToken("onb_cont", "onb", "cont", a.id);
  }

  lemma OnbContWords()
    ensures Split("onb_cont", '_') == ["onb", "cont"]
  {
    SplitTwoWords("onb", "cont");
    assert "onb" + "_" + "cont" == "onb_cont";
  }

  /** Pressing the button again changes nothing more: recording a contract is idempotent. */
  lemma OnbIdempotent(artists: seq<Artist>, aid: int)
    ensures WithArtistFlag(WithArtistFlag(artists, aid, Contract, true), aid, Contract, true)
            == WithArtistFlag(artists, aid, Contract, true)
  {
  }
}
