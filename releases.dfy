/**
 * bot/handlers/releases.py: the CreateRelease form, the standard tasks a
 * new release receives, the paged release list and release deletion.
 * `datetime.now()` is the parameter `today`.
 */
module Releases {
  import opened Wrappers
  import opened Text
  import opened Ordering
  import opened Dates
  import opened Store
  import opened Forms
  import opened Keyboards
  import opened Tokens

  /** One entry of the generator's task table: name, description, assignee, days before release, file needed. */
  datatype Spec = Spec(name: string, desc: string, assignee: int, days: nat, requiresFile: bool)

  const FallbackNote := " (Fallback: нет дизайнера)"
  const Album := "Альбом"

  /** The design tasks go to the first designer; without one, to the manager, with a note in the description. */
  function DesignAssignee(designer: Option<int>, managerId: int): (int, string)
  {
    if designer.Some? then (designer.value, "") else (managerId, FallbackNote)
  }

  /** The task table of `generate_release_tasks`. */
  function Specs(title: string, managerId: int, artistName: string, needCover: bool, rtype: string,
                 designer: Option<int>): seq<Spec>
  {
    var (designerId, note) := DesignAssignee(designer, managerId);
    var work := artistName + " - " + title;
    var cover := if needCover then [Spec("🎨 Обложка", "Сделать обложку: " + work + note, designerId, 14, true)] else [];
    var common := [
      Spec("📤 Дистрибуция", "Загрузить трек: " + work, managerId, 10, false),
      Spec(PitchingPrefix, "Форма питчинга: " + work, managerId, 7, false),
      Spec("📱 Сниппет", "Видео-сниппет: " + work + note, designerId, 3, true)];
    var album := if rtype == Album then [
      Spec("📋 Треклист", "Утвердить финальный треклист: " + work, managerId, 30, false),
      Spec("📀 Мета-данные", "Проверить мета-данные всех треков: " + work, managerId, 20, false),
      Spec("📢 Промо-план", "Составить план продвижения альбома: " + work, managerId, 15, false)] else [];
    cover + common + album
  }

  /**
   * The table holds the cover task exactly when a cover is needed, then
   * distribution, pitching and snippet, then the three album tasks exactly
   * for an album.
   */
  lemma SpecsOrder(title: string, managerId: int, artistName: string, needCover: bool, rtype: string,
                   designer: Option<int>)
    ensures var s := Specs(title, managerId, artistName, needCover, rtype, designer);
            var c := if needCover then 1 else 0;
            |s| == c + 3 + (if rtype == Album then 3 else 0)
            && (needCover ==> s[0].name == "🎨 Обложка" && s[0].days == 14)
            && s[c].name == "📤 Дистрибуция" && s[c].days == 10
            && s[c + 1].name == PitchingPrefix && s[c + 1].days == 7
            && s[c + 2].name == "📱 Сниппет" && s[c + 2].days == 3
            && (rtype == Album ==> s[c + 3].days == 30 && s[c + 4].days == 20 && s[c + 5].days == 15)
  {
  }

  /**
   * The design tasks (cover, snippet) need a file and go to the designer,
   * or to the manager with the fallback note when there is no designer;
   * every other task goes to the manager and needs no file.
   */
  lemma SpecsAssignees(title: string, managerId: int, artistName: string, needCover: bool, rtype: string,
                       designer: Option<int>)
    ensures var s := Specs(title, managerId, artistName, needCover, rtype, designer);
            var c := if needCover then 1 else 0;
            forall i :: 0 <= i < |s| ==>
              (s[i].requiresFile <==> (i < c || i == c + 2))
              && s[i].assignee == (if i < c || i == c + 2 then DesignAssignee(designer, managerId).0 else managerId)
  {
  }

  /** Without a designer the description of each design task ends with the fallback note. */
  lemma SpecsFallback(title: string, managerId: int, artistName: string, needCover: bool, rtype: string)
    ensures var s := Specs(title, managerId, artistName, needCover, rtype, None);
            forall i :: 0 <= i < |s| && s[i].requiresFile ==> EndsWith(s[i].desc, FallbackNote)
  {
    var work := artistName + " - " + title;
    EndsWithConcat("Сделать обложку: " + work, FallbackNote);
    EndsWithConcat("Видео-сниппет: " + work, FallbackNote);
  }

  predicate EndsWith(s: string, suffix: string)
  {
    |suffix| <= |s| && s[|s| - |suffix|..] == suffix
  }

  lemma EndsWithConcat(a: string, b: string)
    ensures EndsWith(a + b, b)
  {
    assert (a + b)[|a|..] == b;
  }

  /** `target < datetime.now()`: a deadline already passed becomes today. */
  function DeadlineDate(target: Date, today: Date): (d: Date)
    ensures !Before(d, today)
    ensures d == today || d == target
    ensures !Before(target, today) ==> d == target
  {
    if Before(target, today) || target == today then today else target
  }

  /** The deadline text of a task `days` before the release; `None` where the subtraction overflows. */
  function Deadline(release: Date, days: nat, today: Date): (r: Option<string>)
    requires Valid(release) && Valid(today)
    ensures r.Some? <==> SubDays(release, days).Some?
  {
    match SubDays(release, days)
    case None => None
    case Some(t) => Some(Format(DeadlineDate(t, today)))
  }

  /** The `create_task` arguments of one table entry. */
  function TaskOf(s: Spec, artistName: string, managerId: int, relId: int, deadline: string): (n: NewTask)
    ensures n.assignedTo == s.assignee && n.createdBy == managerId && n.releaseId == Some(relId)
    ensures n.deadline == deadline && n.requiresFile == s.requiresFile && n.description == s.desc
    ensures StartsWith(n.title, s.name)
  {
    PrefixStartsWith(s.name, " | " + artistName);
    NewTask(s.name + " | " + artistName, s.desc, s.assignee, managerId, Some(relId), deadline, s.requiresFile)
  }

  lemma PrefixStartsWith(a: string, b: string)
    ensures StartsWith(a + b, a)
  {
    assert (a + b)[..|a|] == a;
  }

  /** What the generator needs besides its table: the artist, the manager, the release and today. */
  datatype Gen = Gen(artistName: string, managerId: int, relId: int, release: Date, today: Date)

  predicate GenOk(g: Gen)
  {
    Valid(g.release) && Valid(g.today)
  }

  /** The task of one entry, or `None` where its deadline overflows. */
  function Step(g: Gen, s: Spec): Option<NewTask>
    requires GenOk(g)
  {
    var dl := Deadline(g.release, s.days, g.today);
    if dl.None? then None else Some(TaskOf(s, g.artistName, g.managerId, g.relId, dl.value))
  }

  /**
   * An entry yields a task exactly when its day exists: the task of that
   * entry, due that day or today if that day has passed.
   */
  lemma StepFacts(g: Gen, s: Spec)
    requires GenOk(g)
    ensures Step(g, s).Some? <==> SubDays(g.release, s.days).Some?
    ensures Step(g, s).Some? ==>
              var t := DeadlineDate(SubDays(g.release, s.days).value, g.today);
              Step(g, s).value == TaskOf(s, g.artistName, g.managerId, g.relId, Format(t))
  {
  }

  /** The step function the generator's loop applies to each entry. */
  function StepOf(g: Gen): Spec -> Option<NewTask>
    requires GenOk(g)
  {
    (s: Spec) => Step(g, s)
  }

  /**
   * The tasks a loop applying `step` inserts: one per table entry, in
   * table order, up to the first entry that yields none, where Python
   * raises and the handler stops.
   */
  function Plan(step: Spec -> Option<NewTask>, specs: seq<Spec>): (p: seq<NewTask>)
    ensures |p| <= |specs|
    decreases |specs|
  {
    if |specs| == 0 then []
    else
      var init := Plan(step, specs[..|specs| - 1]);
      var n := step(specs[|specs| - 1]);
      if |init| < |specs| - 1 || n.None? then init else init + [n.value]
  }

  /** Task `i` of the plan is what the step yields for entry `i`. */
  lemma {:induction false} PlanFacts(step: Spec -> Option<NewTask>, specs: seq<Spec>)
    ensures var p := Plan(step, specs);
            forall i :: 0 <= i < |p| ==> step(specs[i]) == Some(p[i])
    decreases |specs|
  {
    if |specs| > 0 {
      var init := specs[..|specs| - 1];
      PlanFacts(step, init);
      assert forall i :: 0 <= i < |init| ==> init[i] == specs[i];
    }
  }

  /** When every entry yields a task, the plan covers the whole table. */
  lemma {:induction false} PlanComplete(step: Spec -> Option<NewTask>, specs: seq<Spec>)
    requires forall i :: 0 <= i < |specs| ==> step(specs[i]).Some?
    ensures |Plan(step, specs)| == |specs|
    decreases |specs|
  {
    if |specs| > 0 {
      var init := specs[..|specs| - 1];
      assert forall i :: 0 <= i < |init| ==> init[i] == specs[i];
      PlanComplete(step, init);
    }
  }

  /**
   * Every generated task belongs to the release, is created by the
   * manager, follows its table entry, and is due on the entry's day, or
   * today if that day has passed; so its stored deadline is never before
   * today's date text.
   */
  lemma GeneratedTasks(g: Gen, specs: seq<Spec>)
    requires GenOk(g)
    ensures var p := Plan(StepOf(g), specs);
            forall i :: 0 <= i < |p| ==>
              SubDays(g.release, specs[i].days).Some?
              && var d := DeadlineDate(SubDays(g.release, specs[i].days).value, g.today);
                 p[i] == TaskOf(specs[i], g.artistName, g.managerId, g.relId, Format(d))
                 && !Less(p[i].deadline, Format(g.today))
  {
    var p := Plan(StepOf(g), specs);
    PlanFacts(StepOf(g), specs);
    forall i | 0 <= i < |p|
      ensures SubDays(g.release, specs[i].days).Some?
      ensures var d := DeadlineDate(SubDays(g.release, specs[i].days).value, g.today);
              p[i] == TaskOf(specs[i], g.artistName, g.managerId, g.relId, Format(d))
              && !Less(p[i].deadline, Format(g.today))
    {
      assert StepOf(g)(specs[i]) == Step(g, specs[i]);
      StepFacts(g, specs[i]);
      var d := DeadlineDate(SubDays(g.release, specs[i].days).value, g.today);
      FormatOrder(d, g.today);
    }
  }

  /** Going back `k` days from a date in year `k + 1` or later never overflows. */
  lemma {:induction false} SubDaysDefined(d: Date, k: nat)
    requires Valid(d) && d.year > k
    ensures SubDays(d, k).Some? && SubDays(d, k).value.year >= d.year - k
  {
    if k > 0 {
      SubDaysDefined(d, k - 1);
    }
  }

  /** Every table entry is at most thirty days before the release. */
  lemma SpecsDays(title: string, managerId: int, artistName: string, needCover: bool, rtype: string,
                  designer: Option<int>)
    ensures var s := Specs(title, managerId, artistName, needCover, rtype, designer);
            forall i :: 0 <= i < |s| ==> s[i].days <= 30
  {
  }

  /** For a release from year 31 on, the whole table is inserted. */
  lemma PlanCompleteModern(g: Gen, title: string, needCover: bool, rtype: string, designer: Option<int>)
    requires GenOk(g) && g.release.year > 30
    ensures var specs := Specs(title, g.managerId, g.artistName, needCover, rtype, designer);
            |Plan(StepOf(g), specs)| == |specs|
  {
    var specs := Specs(title, g.managerId, g.artistName, needCover, rtype, designer);
    SpecsDays(title, g.managerId, g.artistName, needCover, rtype, designer);
    forall i | 0 <= i < |specs| ensures StepOf(g)(specs[i]).Some? {
      SubDaysDefined(g.release, specs[i].days);
      StepFacts(g, specs[i]);
    }
    PlanComplete(StepOf(g), specs);
  }

  /** The rows `create_task` inserts for `ns`, numbered from `start`. */
  function Rows(start: int, ns: seq<NewTask>): (r: seq<Task>)
    ensures |r| == |ns|
  {
    if |ns| == 0 then [] else Rows(start, ns[..|ns| - 1]) + [Row(start + |ns| - 1, ns[|ns| - 1])]
  }

  /** Row `i` is task `i` of the plan under id `start + i`. */
  lemma {:induction false} RowsAt(start: int, ns: seq<NewTask>, i: nat)
    requires i < |ns|
    ensures Rows(start, ns)[i] == Row(start + i, ns[i])
    decreases |ns|
  {
    if i < |ns| - 1 {
      RowsAt(start, ns[..|ns| - 1], i);
    }
  }

  lemma RowsAppend(start: int, ns: seq<NewTask>, n: NewTask)
    ensures Rows(start, ns + [n]) == Rows(start, ns) + [Row(start + |ns|, n)]
  {
    assert (ns + [n])[..|ns|] == ns;
  }

  lemma PlanStep(step: Spec -> Option<NewTask>, specs: seq<Spec>, i: nat)
    requires i < |specs|
    ensures var before := Plan(step, specs[..i]);
            var n := step(specs[i]);
            Plan(step, specs[..i + 1]) == if |before| < i || n.None? then before else before + [n.value]
  {
    assert specs[..i + 1][..i] == specs[..i];
  }

  /** Once an entry yields no task, the plan of every longer prefix stops there. */
  lemma {:induction false} PlanStops(step: Spec -> Option<NewTask>, specs: seq<Spec>, i: nat)
    requires i < |specs|
    requires |Plan(step, specs[..i + 1])| == i
    ensures Plan(step, specs) == Plan(step, specs[..i + 1])
    decreases |specs| - i
  {
    if |specs| > i + 1 {
      var init := specs[..|specs| - 1];
      assert init[..i + 1] == specs[..i + 1];
      PlanStops(step, init, i);
    } else {
      assert specs[..i + 1] == specs;
    }
  }

  /** One more entry: the plan grows by its task, or stops for good. */
  lemma PlanNext(step: Spec -> Option<NewTask>, specs: seq<Spec>, i: nat, done: seq<NewTask>)
    requires i < |specs| && done == Plan(step, specs[..i]) && |done| == i
    ensures step(specs[i]).None? ==> Plan(step, specs) == done && |done| < |specs|
    ensures step(specs[i]).Some? ==> Plan(step, specs[..i + 1]) == done + [step(specs[i]).value]
  {
    PlanStep(step, specs, i);
    if step(specs[i]).None? {
      PlanStops(step, specs, i);
    }
  }

  /** `create_task` once more, seen as extending the rows inserted so far. */
  method AppendTask(db: Database, n: NewTask, ghost start: int, ghost done: seq<NewTask>)
    requires db.Valid() && db.nextTask == start + |done|
    modifies db`tasks, db`nextTask
    ensures db.Valid() && db.nextTask == start + |done| + 1
    ensures forall base :: old(db.tasks) == base + Rows(start, done) ==> db.tasks == base + Rows(start, done + [n])
  {
    db.CreateTask(n);
    RowsAppend(start, done, n);
  }

  /** The loop of `generate_release_tasks`: one `create_task` per entry, stopping at the first that yields none. */
  method InsertPlan(db: Database, step: Spec -> Option<NewTask>, specs: seq<Spec>) returns (completed: bool)
    requires db.Valid()
    modifies db`tasks, db`nextTask
    ensures db.Valid()
    ensures db.tasks == old(db.tasks) + Rows(old(db.nextTask), Plan(step, specs))
    ensures db.nextTask == old(db.nextTask) + |Plan(step, specs)|
    ensures completed <==> |Plan(step, specs)| == |specs|
  {
    ghost var base, start := db.tasks, db.nextTask;
    ghost var done: seq<NewTask> := [];
    var i := 0;
    while i < |specs|
      invariant 0 <= i <= |specs| && db.Valid()
      invariant done == Plan(step, specs[..i]) && |done| == i
      invariant db.tasks == base + Rows(start, done) && db.nextTask == start + i
    {
      var n := step(specs[i]);
      PlanNext(step, specs, i, done);
      if n.None? {
        return false;
      }
      AppendTask(db, n.value, start, done);
      done := done + [n.value];
      i := i + 1;
    }
    assert specs[..i] == specs;
    return true;
  }

  /** The table `generate_release_tasks` works from, with the first designer looked up. */
  function ReleaseSpecs(users: seq<User>, g: Gen, title: string, needCover: bool, rtype: string): seq<Spec>
  {
    Specs(title, g.managerId, g.artistName, needCover, rtype, Designer(users))
  }

  /**
   * `generate_release_tasks`: inserts the planned tasks and reports whether
   * the whole table was inserted.
   */
  method GenerateTasks(db: Database, g: Gen, title: string, needCover: bool, rtype: string)
    returns (completed: bool)
    requires db.Valid() && GenOk(g)
    modifies db`tasks, db`nextTask
    ensures db.Valid()
    ensures var p := Plan(StepOf(g), ReleaseSpecs(db.users, g, title, needCover, rtype));
            db.tasks == old(db.tasks) + Rows(old(db.nextTask), p) && db.nextTask == old(db.nextTask) + |p|
            && (completed <==> |p| == |ReleaseSpecs(db.users, g, title, needCover, rtype)|)
  {
    var specs := ReleaseSpecs(db.users, g, title, needCover, rtype);
    completed := InsertPlan(db, StepOf(g), specs);
  }

  predicate CanRelease(users: seq<User>, uid: int)
    requires Registered(users, uid)
  {
    FindUser(users, uid).value.role in {"founder", "anr"}
  }

  /** `create_release_start`: founder and anr enter the form; anyone else is ignored. */
  method CreateReleaseStart(ctx: FsmContext, db: Database, uid: int)
    requires ctx.Valid() && Registered(db.users, uid)
    modifies ctx`step
    ensures ctx.Valid()
    ensures CanRelease(db.users, uid) ==> ctx.step == CreateReleaseArtist
    ensures !CanRelease(db.users, uid) ==> ctx.step == old(ctx.step)
  {
    var user := FindUser(db.users, uid).value;
    if user.role != "founder" && user.role != "anr" {
      return;
    }
    ctx.SetState(CreateReleaseArtist);
  }

  /** `create_release_title`: any text names the artist(s). */
  method ReleaseArtistStep(ctx: FsmContext, text: string)
    requires ctx.Valid() && ctx.step == CreateReleaseArtist
    modifies ctx
    ensures ctx.Valid()
    ensures ctx.step == CreateReleaseTitle && ctx.data == old(ctx.data)["artist" := VStr(text)]
  {
    ctx.UpdateData("artist", VStr(text));
    ctx.SetState(CreateReleaseTitle);
  }

  /** `create_release_type`: any text is the title. */
  method ReleaseTitleStep(ctx: FsmContext, text: string)
    requires ctx.Valid() && ctx.step == CreateReleaseTitle
    modifies ctx
    ensures ctx.Valid()
    ensures ctx.step == CreateReleaseType && ctx.data == old(ctx.data)["title" := VStr(text)]
  {
    ctx.UpdateData("title", VStr(text));
    ctx.SetState(CreateReleaseType);
  }

  /** `create_release_cover`: any text is the type; only "Альбом" adds the album tasks later. */
  method ReleaseTypeStep(ctx: FsmContext, text: string)
    requires ctx.Valid() && ctx.step == CreateReleaseType
    modifies ctx
    ensures ctx.Valid()
    ensures ctx.step == CreateReleaseHasCover && ctx.data == old(ctx.data)["type" := VStr(text)]
  {
    ctx.UpdateData("type", VStr(text));
    ctx.SetState(CreateReleaseHasCover);
  }

  const NeedCoverLabel := "❌ Нужно сделать"

  /** `create_release_date`: a cover is needed only for the exact "❌ Нужно сделать" answer. */
  method ReleaseCoverStep(ctx: FsmContext, text: string)
    requires ctx.Valid() && ctx.step == CreateReleaseHasCover
    modifies ctx
    ensures ctx.Valid()
    ensures ctx.step == CreateReleaseDate && ctx.data == old(ctx.data)["need_cover" := VBool(text == NeedCoverLabel)]
  {
    ctx.UpdateData("need_cover", VBool(text == NeedCoverLabel));
    ctx.SetState(CreateReleaseDate);
  }

  /** The artist id `create_release_finish` files the release under, and whether it creates that artist. */
  function ReleaseArtist(artists: seq<Artist>, name: string, next: int): (r: (int, bool))
    ensures r.1 <==> forall i :: 0 <= i < |artists| ==> artists[i].name != name
    ensures r.1 ==> r.0 == next
    ensures !r.1 ==> exists i :: 0 <= i < |artists| && artists[i].name == name && artists[i].id == r.0
  {
    var found := ArtistByName(artists, name);
    if found.Some? then (found.value, false) else (next, true)
  }

  /** `get_artist_by_name`, then `create_artist` when there is no such artist. */
  method EnsureArtist(db: Database, name: string, uid: int, clean: string) returns (aid: int)
    requires db.Valid()
    modifies db`artists, db`nextArtist
    ensures db.Valid()
    ensures var (id, isNew) := ReleaseArtist(old(db.artists), name, old(db.nextArtist));
            aid == id
            && db.artists == old(db.artists) + (if isNew then [Artist(aid, name, uid, Some(clean), false, false, false, false, false)] else [])
  {
    var found := ArtistByName(db.artists, name);
    if found.None? {
      aid := db.CreateArtist(name, uid, Some(clean));
    } else {
      aid := found.value;
    }
  }

  /** The table and the loop environment of the release a form creates. */
  function FormGen(d: Data, uid: int, relId: int, release: Date, today: Date): Gen
    requires Ready(CreateReleaseDate, d)
  {
    Gen(d["artist"].s, uid, relId, release, today)
  }

  /** `create_release` with the form's answers, then `generate_release_tasks` for it. */
  method FileRelease(db: Database, d: Data, aid: int, uid: int, clean: string, date: Date, today: Date)
    returns (rid: int, completed: bool)
    requires db.Valid() && Ready(CreateReleaseDate, d) && Valid(date) && Valid(today)
    modifies db`releases, db`nextRelease, db`tasks, db`nextTask
    ensures db.Valid()
    ensures rid == old(db.nextRelease)
    ensures db.releases == old(db.releases) + [Release(rid, d["title"].s, aid, d["type"].s, clean, uid)]
    ensures var g := FormGen(d, uid, rid, date, today);
            var specs := ReleaseSpecs(db.users, g, d["title"].s, d["need_cover"].b, d["type"].s);
            var p := Plan(StepOf(g), specs);
            db.tasks == old(db.tasks) + Rows(old(db.nextTask), p) && (completed <==> |p| == |specs|)
  {
    rid := db.CreateRelease(d["title"].s, aid, d["type"].s, clean, uid);
    var g := FormGen(d, uid, rid, date, today);
    completed := GenerateTasks(db, g, d["title"].s, d["need_cover"].b, d["type"].s);
  }

  /**
   * `create_release_finish`: a date that does not parse re-prompts and
   * writes nothing. Otherwise the artist named in the form is reused, or
   * created with the sender as manager and this date as first release; the
   * release is inserted, its tasks are generated, and the form is cleared
   * once the whole table is inserted.
   */
  method CreateReleaseFinish(ctx: FsmContext, db: Database, uid: int, text: string, today: Date)
    returns (created: Option<int>)
    requires ctx.Valid() && ctx.step == CreateReleaseDate && db.Valid() && Valid(today)
    modifies ctx, db`artists, db`nextArtist, db`releases, db`nextRelease, db`tasks, db`nextTask
    ensures ctx.Valid() && db.Valid()
    ensures ParseIso(CleanDate(text)).None? ==>
              created.None? && ctx.step == old(ctx.step) && ctx.data == old(ctx.data)
              && db.artists == old(db.artists) && db.releases == old(db.releases) && db.tasks == old(db.tasks)
    ensures ParseIso(CleanDate(text)).Some? ==>
              var d := old(ctx.data);
              var clean := CleanDate(text);
              var (aid, isNew) := ReleaseArtist(old(db.artists), d["artist"].s, old(db.nextArtist));
              created == Some(old(db.nextRelease))
              && db.artists == old(db.artists) + (if isNew then [Artist(aid, d["artist"].s, uid, Some(clean), false, false, false, false, false)] else [])
              && db.releases == old(db.releases) + [Release(old(db.nextRelease), d["title"].s, aid, d["type"].s, clean, uid)]
    ensures ParseIso(CleanDate(text)).Some? ==>
              var d := old(ctx.data);
              var g := FormGen(d, uid, old(db.nextRelease), ParseIso(CleanDate(text)).value, today);
              var specs := ReleaseSpecs(db.users, g, d["title"].s, d["need_cover"].b, d["type"].s);
              var p := Plan(StepOf(g), specs);
              db.tasks == old(db.tasks) + Rows(old(db.nextTask), p)
              && (|p| == |specs| ==> ctx.step == Idle && ctx.data == map[])
              && (|p| < |specs| ==> ctx.step == old(ctx.step) && ctx.data == old(ctx.data))
  {
    var clean := CleanDate(text);
    var date := ParseIso(clean);
    if date.None? {
      return None;
    }
    var rid := FileDated(ctx, db, uid, clean, date.value, today);
    created := Some(rid);
  }

  /** The finish step once the date has parsed: artist, release, tasks, and the form cleared when the table is whole. */
  method FileDated(ctx: FsmContext, db: Database, uid: int, clean: string, date: Date, today: Date) returns (rid: int)
    requires ctx.Valid() && ctx.step == CreateReleaseDate && db.Valid() && Valid(date) && Valid(today)
    modifies ctx, db`artists, db`nextArtist, db`releases, db`nextRelease, db`tasks, db`nextTask
    ensures ctx.Valid() && db.Valid()
    ensures var d := old(ctx.data);
            var (aid, isNew) := ReleaseArtist(old(db.artists), d["artist"].s, old(db.nextArtist));
            rid == old(db.nextRelease)
            && db.artists == old(db.artists) + (if isNew then [Artist(aid, d["artist"].s, uid, Some(clean), false, false, false, false, false)] else [])
            && db.releases == old(db.releases) + [Release(old(db.nextRelease), d["title"].s, aid, d["type"].s, clean, uid)]
    ensures var d := old(ctx.data);
            var g := FormGen(d, uid, old(db.nextRelease), date, today);
            var specs := ReleaseSpecs(db.users, g, d["title"].s, d["need_cover"].b, d["type"].s);
            var p := Plan(StepOf(g), specs);
            db.tasks == old(db.tasks) + Rows(old(db.nextTask), p)
            && (|p| == |specs| ==> ctx.step == Idle && ctx.data == map[])
            && (|p| < |specs| ==> ctx.step == old(ctx.step) && ctx.data == old(ctx.data))
  {
    var aid := EnsureArtist(db, ctx.data["artist"].s, uid, clean);
    var completed;
    rid, completed := FileRelease(db, ctx.data, aid, uid, clean, date, today);
    if completed {
      ctx.Clear();
    }
  }

  /** `relpage_<n>`. */
  function RelPageToken(page: int): string
  {
    Token("relpage", page)
  }

  const BackLabel := "⬅️ Назад"
  const ForwardLabel := "Вперед ➡️"

  /** The buttons under a page that shows rows: back unless it is the first page, forward while rows remain. */
  function PageButtons(page: nat, total: nat): (kb: seq<Button>)
    ensures |kb| == (if page > 0 then 1 else 0) + (if (page + 1) * PageSize < total then 1 else 0)
    ensures page > 0 ==> kb[0] == Button(BackLabel, RelPageToken(page - 1))
    ensures (page + 1) * PageSize < total ==> kb[|kb| - 1] == Button(ForwardLabel, RelPageToken(page + 1))
  {
    (if page > 0 then [Button(BackLabel, RelPageToken(page - 1))] else [])
    + (if (page + 1) * PageSize < total then [Button(ForwardLabel, RelPageToken(page + 1))] else [])
  }

  /** The page number comes back out of `relpage_<n>`. */
  lemma RelPageRoundTrip(page: int)
    ensures IntField(RelPageToken(page), 1) == Some(page)
  {
    SplitWhole("relpage", '_');
    TokenRoundTrip("relpage", page);
  }

  /**
   * The buttons lead to pages that show rows: the page after a page with a
   * forward button is not empty, and the page before any page with rows is full.
   */
  lemma PageButtonsNavigate(releases: seq<Release>, role: string, uid: int, page: nat)
    ensures var total := ReleasesPage(releases, role, uid, page).total;
            (page + 1) * PageSize < total ==> |ReleasesPage(releases, role, uid, page + 1).rows| > 0
    ensures page > 0 && |ReleasesPage(releases, role, uid, page).rows| > 0 ==>
              |ReleasesPage(releases, role, uid, page - 1).rows| == PageSize
  {
  }

  /** What `show_releases_page` sends: whose releases, the rows of the page, the count and the buttons. */
  datatype Listing = Listing(allReleases: bool, rows: seq<Release>, total: nat, buttons: seq<Button>)

  /**
   * `show_releases_page`: founder and anr see a page of five, latest
   * release date first, the founder over every release and anr over their
   * own; an empty page has no buttons. Anyone else, and a negative page
   * (a negative OFFSET, which PostgreSQL rejects), gets no answer.
   */
  method ShowReleasesPage(db: Database, uid: int, page: int) returns (view: Option<Listing>)
    requires Registered(db.users, uid)
    ensures view.Some? <==> CanRelease(db.users, uid) && page >= 0
    ensures view.Some? ==>
              var role := FindUser(db.users, uid).value.role;
              var p := ReleasesPage(db.releases, role, uid, page);
              view.value.allReleases == (role == "founder")
              && view.value.rows == p.rows && view.value.total == p.total
              && view.value.buttons == (if |p.rows| == 0 then [] else PageButtons(page, p.total))
  {
    var user := FindUser(db.users, uid).value;
    if user.role != "founder" && user.role != "anr" {
      return None;
    }
    if page < 0 {
      return None;
    }
    var p := ReleasesPage(db.releases, user.role, uid, page);
    var kb := if |p.rows| == 0 then [] else PageButtons(page, p.total);
    view := Some(Listing(user.role == "founder", p.rows, p.total, kb));
  }

  /** `releases_page_callback`: the page number is the second piece of the data. */
  method ReleasesPageCallback(db: Database, uid: int, data: string) returns (view: Option<Listing>)
    requires Registered(db.users, uid)
    ensures IntField(data, 1).None? ==> view.None?
    ensures IntField(data, 1).Some? ==>
              (view.Some? <==> CanRelease(db.users, uid) && IntField(data, 1).value >= 0)
    ensures view.Some? ==>
              var role := FindUser(db.users, uid).value.role;
              var page := IntField(data, 1).value;
              view.value.rows == ReleasesPage(db.releases, role, uid, page).rows
  {
    var page := IntField(data, 1);
    if page.None? {
      return None;
    }
    view := ShowReleasesPage(db, uid, page.value);
  }

  /** `del_rel_<id>`. */
  function DelRelToken(r: Release): string
  {
    Token("del_rel", r.id)
  }

  function DelRelText(r: Release): string
  {
    "❌ " + r.title
  }

  /** `delete_rel_start`: the founder gets one button per release among the ten latest; anyone else silence. */
  method DeleteReleaseStart(db: Database, uid: int) returns (kb: Option<seq<Button>>)
    requires Registered(db.users, uid)
    ensures kb.Some? <==> FindUser(db.users, uid).value.role == "founder"
    ensures kb.Some? ==>
              var last := LastReleases(db.releases);
              |kb.value| == |last| <= 10
              && forall i :: 0 <= i < |last| ==> kb.value[i] == Button(DelRelText(last[i]), DelRelToken(last[i]))
  {
    var user := FindUser(db.users, uid).value;
    if user.role != "founder" {
      return None;
    }
    var list := Buttons(LastReleases(db.releases), DelRelText, DelRelToken);
    kb := Some(list);
  }

  /** The id comes back out of the third piece of `del_rel_<id>`. */
  lemma DelRelRoundTrip(r: Release)
    ensures IntField(DelRelToken(r), 2) == Some(r.id)
  {
    SplitTwoWords("del", "rel");
    assert "del" + "_" + "rel" == "del_rel";
    TokenRoundTrip("del_rel", r.id);
  }

  /**
   * `delete_rel_confirm`: the release of the button and all its tasks are
   * gone and every other row stays; data with no integer third piece stops
   * the handler before any write.
   */
  method DeleteReleaseConfirm(db: Database, data: string) returns (deleted: Option<int>)
    requires db.Valid()
    modifies db`tasks, db`releases
    ensures db.Valid() && deleted == IntField(data, 2)
    ensures deleted.None? ==> db.tasks == old(db.tasks) && db.releases == old(db.releases)
    ensures deleted.Some? ==>
              db.tasks == Filter(old(db.tasks), (t: Task) => t.releaseId != Some(deleted.value))
              && db.releases == Filter(old(db.releases), (r: Release) => r.id != deleted.value)
  {
    deleted := IntField(data, 2);
    if deleted.None? {
      return;
    }
    db.DeleteReleaseCascade(deleted.value);
  }

  /** After the cascade no task points at the release, and it is the only release gone. */
  lemma CascadeLeavesNoOrphans(tasks: seq<Task>, releases: seq<Release>, rid: int)
    ensures forall t :: t in Filter(tasks, (t: Task) => t.releaseId != Some(rid)) ==> t in tasks && t.releaseId != Some(rid)
    ensures forall t :: t in tasks && t.releaseId != Some(rid) ==> t in Filter(tasks, (t: Task) => t.releaseId != Some(rid))
    ensures forall r :: r in releases && r.id != rid <==> r in Filter(releases, (r: Release) => r.id != rid)
  {
  }
}
