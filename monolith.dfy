/**
 * bot.py: the single-file bot that came before the bot/ package. Its
 * store, forms, auth middlewares, task handlers and jobs are the same
 * statements as the package's and are modelled once, there. What differs
 * is modelled here: the release task table (no album tasks) and its
 * deadlines (no clamp to today), the menus and the routes they reach,
 * and the SMM handlers (no role gate, no length cut).
 */
module Monolith {
  import opened Wrappers
  import opened Text
  import opened Ordering
  import opened Dates
  import opened Store
  import opened Forms
  import opened Keyboards
  import Releases

  // ------------------------------------------------------------ release tasks

  /** The task table of bot.py's `generate_release_tasks`: the package's, without the album branch. */
  function MonoSpecs(title: string, managerId: int, artistName: string, needCover: bool, designer: Option<int>)
    : seq<Releases.Spec>
  {
    var (designerId, note) := Releases.DesignAssignee(designer, managerId);
    var work := artistName + " - " + title;
    var cover := if needCover then [Releases.Spec("🎨 Обложка", "Сделать обложку: " + work + note, designerId, 14, true)] else [];
    cover + [
      Releases.Spec("📤 Дистрибуция", "Загрузить трек: " + work, managerId, 10, false),
      Releases.Spec(PitchingPrefix, "Форма питчинга: " + work, managerId, 7, false),
      Releases.Spec("📱 Сниппет", "Видео-сниппет: " + work + note, designerId, 3, true)]
  }

  /**
   * Three tasks, or four with the cover first: distribution (10 days before
   * the release), pitching (7) and snippet (3); the cover (14) and the
   * snippet need a file and go to the designer, or to the manager with the
   * fallback note; the rest go to the manager. The release type plays no part.
   */
  lemma MonoSpecsShape(title: string, managerId: int, artistName: string, needCover: bool, designer: Option<int>)
    ensures var s := MonoSpecs(title, managerId, artistName, needCover, designer);
            var c := if needCover then 1 else 0;
            |s| == c + 3
            && (needCover ==> s[0].name == "🎨 Обложка" && s[0].days == 14)
            && s[c].name == "📤 Дистрибуция" && s[c].days == 10
            && s[c + 1].name == PitchingPrefix && s[c + 1].days == 7
            && s[c + 2].name == "📱 Сниппет" && s[c + 2].days == 3
            && forall i :: 0 <= i < |s| ==>
                 (s[i].requiresFile <==> (i < c || i == c + 2))
                 && s[i].assignee == (if i < c || i == c + 2 then Releases.DesignAssignee(designer, managerId).0 else managerId)
  {
  }

  /** For anything but an album, the table is the package's table entry for entry. */
  lemma MonoSpecsAreSingleSpecs(title: string, managerId: int, artistName: string, needCover: bool, rtype: string,
                                designer: Option<int>)
    requires rtype != Releases.Album
    ensures MonoSpecs(title, managerId, artistName, needCover, designer)
            == Releases.Specs(title, managerId, artistName, needCover, rtype, designer)
  {
  }

  /** bot.py gives an album three tasks fewer than the package. */
  lemma AlbumTasksMissing(title: string, managerId: int, artistName: string, needCover: bool, designer: Option<int>)
    ensures |Releases.Specs(title, managerId, artistName, needCover, Releases.Album, designer)|
            == |MonoSpecs(title, managerId, artistName, needCover, designer)| + 3
  {
  }

  /** What the generator needs besides its table; bot.py never reads the clock here. */
  datatype MonoGen = MonoGen(artistName: string, managerId: int, relId: int, release: Date)

  /** `(r_dt - timedelta(days=days)).strftime("%Y-%m-%d")`, or `None` where the subtraction overflows. */
  function MonoStep(g: MonoGen, s: Releases.Spec): Option<NewTask>
    requires Valid(g.release)
  {
    match SubDays(g.release, s.days)
    case None => None
    case Some(d) => Some(Releases.TaskOf(s, g.artistName, g.managerId, g.relId, Format(d)))
  }

  function MonoStepOf(g: MonoGen): Releases.Spec -> Option<NewTask>
    requires Valid(g.release)
  {
    (s: Releases.Spec) => MonoStep(g, s)
  }

  /**
   * Every generated task follows its table entry and is due exactly its
   * number of days before the release, whatever today is.
   */
  lemma MonoGeneratedTasks(g: MonoGen, specs: seq<Releases.Spec>)
    requires Valid(g.release)
    ensures var p := Releases.Plan(MonoStepOf(g), specs);
            forall i :: 0 <= i < |p| ==>
              SubDays(g.release, specs[i].days).Some?
              && p[i] == Releases.TaskOf(specs[i], g.artistName, g.managerId, g.relId,
                                         Format(SubDays(g.release, specs[i].days).value))
  {
    var p := Releases.Plan(MonoStepOf(g), specs);
    Releases.PlanFacts(MonoStepOf(g), specs);
    forall i | 0 <= i < |p|
      ensures SubDays(g.release, specs[i].days).Some?
      ensures p[i] == Releases.TaskOf(specs[i], g.artistName, g.managerId, g.relId,
                                      Format(SubDays(g.release, specs[i].days).value))
    {
      assert MonoStepOf(g)(specs[i]) == MonoStep(g, specs[i]);
    }
  }

  /**
   * Without the clamp, a release filed for today gets tasks already past
   * their deadlines: every one of them is selected by the overdue sweep
   * that same day.
   */
  lemma ReleaseTodayOverdueAtOnce(g: MonoGen, title: string, needCover: bool, designer: Option<int>, start: int)
    requires Valid(g.release)
    ensures var specs := MonoSpecs(title, g.managerId, g.artistName, needCover, designer);
            var rows := Releases.Rows(start, Releases.Plan(MonoStepOf(g), specs));
            forall i :: 0 <= i < |rows| ==> OverdueCandidate(rows[i], Format(g.release))
  {
    var specs := MonoSpecs(title, g.managerId, g.artistName, needCover, designer);
    assert forall i :: 0 <= i < |specs| ==> specs[i].days > 0;
    EarlyEntriesOverdue(g, specs, start);
  }

  /** Tasks due days before the release are overdue on the release day. */
  lemma EarlyEntriesOverdue(g: MonoGen, specs: seq<Releases.Spec>, start: int)
    requires Valid(g.release) && forall i :: 0 <= i < |specs| ==> specs[i].days > 0
    ensures var rows := Releases.Rows(start, Releases.Plan(MonoStepOf(g), specs));
            forall i :: 0 <= i < |rows| ==> OverdueCandidate(rows[i], Format(g.release))
  {
    var p := Releases.Plan(MonoStepOf(g), specs);
    MonoGeneratedTasks(g, specs);
    forall i | 0 <= i < |p| ensures OverdueCandidate(Releases.Rows(start, p)[i], Format(g.release)) {
      Releases.RowsAt(start, p, i);
      var d := SubDays(g.release, specs[i].days).value;
      FormatOrder(d, g.release);
    }
  }

  /** bot.py's `generate_release_tasks`: one task per entry, bot.py's way. */
  method MonoGenerateTasks(db: Database, g: MonoGen, title: string, needCover: bool) returns (completed: bool)
    requires db.Valid() && Valid(g.release)
    modifies db`tasks, db`nextTask
    ensures db.Valid()
    ensures var specs := MonoSpecs(title, g.managerId, g.artistName, needCover, Designer(db.users));
            var p := Releases.Plan(MonoStepOf(g), specs);
            db.tasks == old(db.tasks) + Releases.Rows(old(db.nextTask), p) && db.nextTask == old(db.nextTask) + |p|
            && (completed <==> |p| == |specs|)
  {
    var specs := MonoSpecs(title, g.managerId, g.artistName, needCover, Designer(db.users));
    completed := Releases.InsertPlan(db, MonoStepOf(g), specs);
  }

  /**
   * bot.py's `create_release_finish`: the same date check, artist reuse and
   * release row as the package, then bot.py's task table.
   */
  method MonoCreateReleaseFinish(ctx: FsmContext, db: Database, uid: int, text: string)
    returns (created: Option<int>)
    requires ctx.Valid() && ctx.step == CreateReleaseDate && db.Valid()
    modifies ctx, db`artists, db`nextArtist, db`releases, db`nextRelease, db`tasks, db`nextTask
    ensures ctx.Valid() && db.Valid()
    ensures ParseIso(CleanDate(text)).None? ==>
              created.None? && ctx.step == old(ctx.step) && ctx.data == old(ctx.data)
              && db.artists == old(db.artists) && db.releases == old(db.releases) && db.tasks == old(db.tasks)
    ensures ParseIso(CleanDate(text)).Some? ==>
              var d := old(ctx.data);
              var clean := CleanDate(text);
              var (aid, isNew) := Releases.ReleaseArtist(old(db.artists), d["artist"].s, old(db.nextArtist));
              created == Some(old(db.nextRelease))
              && db.artists == old(db.artists) + (if isNew then [Artist(aid, d["artist"].s, uid, Some(clean), false, false, false, false, false)] else [])
              && db.releases == old(db.releases) + [Release(old(db.nextRelease), d["title"].s, aid, d["type"].s, clean, uid)]
    ensures ParseIso(CleanDate(text)).Some? ==>
              var d := old(ctx.data);
              var g := MonoGen(d["artist"].s, uid, old(db.nextRelease), ParseIso(CleanDate(text)).value);
              var specs := MonoSpecs(d["title"].s, uid, d["artist"].s, d["need_cover"].b, Designer(db.users));
              var p := Releases.Plan(MonoStepOf(g), specs);
              db.tasks == old(db.tasks) + Releases.Rows(old(db.nextTask), p)
              && (|p| == |specs| ==> ctx.step == Idle && ctx.data == map[])
              && (|p| < |specs| ==> ctx.step == old(ctx.step) && ctx.data == old(ctx.data))
  {
    var clean := CleanDate(text);
    var date := ParseIso(clean);
    if date.None? {
      return None;
    }
    var rid := MonoFileDated(ctx, db, uid, clean, date.value);
    created := Some(rid);
  }

  /** The finish step once the date has parsed: artist, release, task table, and the form cleared when the table is whole. */
  method MonoFileDated(ctx: FsmContext, db: Database, uid: int, clean: string, date: Date) returns (rid: int)
    requires ctx.Valid() && ctx.step == CreateReleaseDate && db.Valid() && Valid(date)
    modifies ctx, db`artists, db`nextArtist, db`releases, db`nextRelease, db`tasks, db`nextTask
    ensures ctx.Valid() && db.Valid()
    ensures var d := old(ctx.data);
            var (aid, isNew) := Releases.ReleaseArtist(old(db.artists), d["artist"].s, old(db.nextArtist));
            rid == old(db.nextRelease)
            && db.artists == old(db.artists) + (if isNew then [Artist(aid, d["artist"].s, uid, Some(clean), false, false, false, false, false)] else [])
            && db.releases == old(db.releases) + [Release(old(db.nextRelease), d["title"].s, aid, d["type"].s, clean, uid)]
    ensures var d := old(ctx.data);
            var g := MonoGen(d["artist"].s, uid, old(db.nextRelease), date);
            var specs := MonoSpecs(d["title"].s, uid, d["artist"].s, d["need_cover"].b, Designer(db.users));
            var p := Releases.Plan(MonoStepOf(g), specs);
            db.tasks == old(db.tasks) + Releases.Rows(old(db.nextTask), p)
            && (|p| == |specs| ==> ctx.step == Idle && ctx.data == map[])
            && (|p| < |specs| ==> ctx.step == old(ctx.step) && ctx.data == old(ctx.data))
  {
    var aid := Releases.EnsureArtist(db, ctx.data["artist"].s, uid, clean);
    var completed;
    rid, completed := MonoFileRelease(db, ctx.data, aid, uid, clean, date);
    if completed {
      ctx.Clear();
    }
  }

  /** The release row and bot.py's task table for it. */
  method MonoFileRelease(db: Database, d: Data, aid: int, uid: int, clean: string, date: Date)
    returns (rid: int, completed: bool)
    requires db.Valid() && Ready(CreateReleaseDate, d) && Valid(date)
    modifies db`releases, db`nextRelease, db`tasks, db`nextTask
    ensures db.Valid()
    ensures rid == old(db.nextRelease)
    ensures db.releases == old(db.releases) + [Release(rid, d["title"].s, aid, d["type"].s, clean, uid)]
    ensures var g := MonoGen(d["artist"].s, uid, rid, date);
            var specs := MonoSpecs(d["title"].s, uid, d["artist"].s, d["need_cover"].b, Designer(db.users));
            var p := Releases.Plan(MonoStepOf(g), specs);
            db.tasks == old(db.tasks) + Releases.Rows(old(db.nextTask), p) && (completed <==> |p| == |specs|)
  {
    rid := db.CreateRelease(d["title"].s, aid, d["type"].s, clean, uid);
    var g := MonoGen(d["artist"].s, uid, rid, date);
    completed := MonoGenerateTasks(db, g, d["title"].s, d["need_cover"].b);
  }

  // -------------------------------------------------------------------- menus

  /** bot.py's `get_main_kb(role)`. */
  function MonoMainKb(role: string): Rows
  {
    if role == "founder" then
      [["👥 Пользователи", "➕ Добавить юзера"],
       ["🗑 Удалить юзера", "💿 Все релизы"],
       ["💿 Создать релиз", "➕ Создать задачу"],
       ["📋 Активные задачи", "📜 История всех задач"]]
    else if role == "anr" then
      [["💿 Создать релиз", "💿 Мои релизы"],
       ["➕ Создать задачу", "📋 Мои задачи"],
       ["📜 История"]]
    else if role == "designer" then
      [["📋 Мои задачи", "📜 История"], ["🕰 Просроченные"]]
    else if role == "smm" then
      [["📝 Написать отчет", "📅 Мои отчеты"], ["📋 Мои задачи", "📜 История"]]
    else []
  }

  /** The menu texts bot.py's handlers answer. */
  const MonoRoutes: set<string> := {
    "👥 Пользователи", "➕ Добавить юзера", "🗑 Удалить юзера",
    "💿 Создать релиз", "💿 Релизы", "💿 Все релизы", "💿 Мои релизы", "🗑 Удалить релиз",
    "➕ Создать задачу", "📋 Активные задачи", "📋 Мои задачи", "📜 История всех задач", "📜 История",
    "📝 Написать отчет", "📅 Мои отчеты"
  }

  /** The labels of a role's bot.py menu that no bot.py handler answers. */
  function MonoUnrouted(role: string): (r: seq<string>)
    ensures forall l :: l in r <==> l in Labels(MonoMainKb(role)) && l !in MonoRoutes
  {
    Subtract(Labels(MonoMainKb(role)), MonoRoutes)
  }

  lemma MonoLabels(role: string)
    ensures role == "founder" ==> (Labels(MonoMainKb(role)) ==
      ["👥 Пользователи", "➕ Добавить юзера", "🗑 Удалить юзера", "💿 Все релизы",
       "💿 Создать релиз", "➕ Создать задачу", "📋 Активные задачи", "📜 История всех задач"])
    ensures role == "anr" ==> (Labels(MonoMainKb(role)) ==
      ["💿 Создать релиз", "💿 Мои релизы", "➕ Создать задачу", "📋 Мои задачи", "📜 История"])
    ensures role == "smm" ==> Labels(MonoMainKb(role)) == ["📝 Написать отчет", "📅 Мои отчеты", "📋 Мои задачи", "📜 История"]
    ensures role == "designer" ==> Labels(MonoMainKb(role)) == ["📋 Мои задачи", "📜 История", "🕰 Просроченные"]
  {
    var kb := MonoMainKb(role);
    if role == "founder" {
      assert Labels(kb[3..]) == kb[3];
      assert Labels(kb[2..]) == kb[2] + kb[3];
      assert Labels(kb[1..]) == kb[1] + kb[2] + kb[3];
    } else if role == "anr" {
      assert Labels(kb[2..]) == kb[2];
      assert Labels(kb[1..]) == kb[1] + kb[2];
    } else if role == "designer" || role == "smm" {
      assert Labels(kb[1..]) == kb[1];
    }
  }

  /** In bot.py the smm's report buttons are answered, unlike in the package. */
  lemma MonoSmmRouted()
    ensures MonoUnrouted("smm") == []
    ensures Unrouted("smm") != []
  {
    MonoLabels("smm");
    SubtractNone(Labels(MonoMainKb("smm")), MonoRoutes);
    UnroutedSmm();
  }

  /** Every button of bot.py's founder menu is answered, user deletion included. */
  lemma MonoFounderRouted()
    ensures MonoUnrouted("founder") == []
    ensures "🗑 Удалить юзера" in Labels(MonoMainKb("founder"))
  {
    MonoLabels("founder");
    SubtractNone(Labels(MonoMainKb("founder")), MonoRoutes);
  }

  /** Every button of bot.py's anr menu is answered. */
  lemma MonoAnrRouted()
    ensures MonoUnrouted("anr") == []
  {
    MonoLabels("anr");
    SubtractNone(Labels(MonoMainKb("anr")), MonoRoutes);
  }

  /** The designer's "🕰 Просроченные" is answered by no handler in bot.py either. */
  lemma MonoDesignerUnrouted()
    ensures MonoUnrouted("designer") == ["🕰 Просроченные"]
  {
    MonoLabels("designer");
    var ls := Labels(MonoMainKb("designer"));
    assert "🕰 Просроченные" !in MonoRoutes;
    assert Subtract(ls[2..], MonoRoutes) == ["🕰 Просроченные"];
    SubtractNone(ls[..2], MonoRoutes);
    assert Subtract(ls[1..], MonoRoutes) == Subtract(ls[2..], MonoRoutes);
  }

  // ---------------------------------------------------------------------- smm

  /** `smm_start`: any user enters the report step; bot.py checks no role. */
  method MonoSmmStart(ctx: FsmContext)
    requires ctx.Valid()
    modifies ctx`step
    ensures ctx.Valid() && ctx.step == SmmReportText
  {
    ctx.SetState(SmmReportText);
  }

  /** One line of bot.py's report list. */
  function MonoEntry(r: Report): string
  {
    "📅 <b>" + r.reportDate + "</b>: " + r.text
  }

  const EmptyReply := "Пусто."

  /**
   * `smm_list`: the sender's twenty newest reports, newest first, one line
   * each joined by new lines, for any role and with no length cut; the
   * fixed reply when there are none.
   */
  function MonoReportList(reports: seq<Report>, uid: int): (text: string)
    requires IdsIncreasing(reports, ReportId)
  {
    var rs := ReportsOf(reports, uid);
    if |rs| == 0 then EmptyReply
    else Join(seq(|rs|, i requires 0 <= i < |rs| => MonoEntry(rs[i])), '\n')
  }

  /**
   * The list is sent whole: a single report of the sender comes back as its
   * line, however long its text, where the package cuts at 4000 characters.
   */
  lemma MonoListUncut(r: Report)
    ensures MonoReportList([r], r.userId) == MonoEntry(r)
    ensures |MonoReportList([r], r.userId)| > |r.text|
  {
    OwnReportListed(r);
    ListOfOne([r], r.userId, r);
    EntryHoldsText(r);
  }

  lemma ListOfOne(reports: seq<Report>, uid: int, x: Report)
    requires IdsIncreasing(reports, ReportId) && ReportsOf(reports, uid) == [x]
    ensures MonoReportList(reports, uid) == MonoEntry(x)
  {
    var rs := ReportsOf(reports, uid);
    var lines := seq(|rs|, i requires 0 <= i < |rs| => MonoEntry(rs[i]));
    assert lines == [MonoEntry(x)];
  }

  lemma EntryHoldsText(r: Report)
    ensures |MonoEntry(r)| > |r.text|
  {
    var head := "📅 <b>" + r.reportDate + "</b>: ";
    assert MonoEntry(r) == head + r.text && |head| > 0;
  }

  lemma OwnReportListed(r: Report)
    ensures ReportsOf([r], r.userId) == [r]
  {
    var mine := ReportsBy([r], r.userId);
    assert [r][0] == r;
    assert r in mine;
    assert |mine| == 1;
    var rs := ReportsOf([r], r.userId);
    assert |rs| == 1 && rs[0] in [r];
  }

  /** A sender without reports gets the fixed reply. */
  lemma MonoListEmpty(reports: seq<Report>, uid: int)
    requires IdsIncreasing(reports, ReportId)
    requires forall i :: 0 <= i < |reports| ==> reports[i].userId != uid
    ensures MonoReportList(reports, uid) == EmptyReply
  {
  }
}
