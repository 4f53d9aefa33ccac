/**
 * main.py: the single-file variant of the bot on an object-relational
 * mapper. It reads its own configuration (a forgiving `ADMIN_IDS` and a
 * rewritten database URL), keeps its own tables (task statuses pending,
 * in_progress, done and overdue; deadlines as midnight timestamps; the
 * A&R role spelt "ar"), generates the tasks of a release with its own
 * offsets, closes tasks with or without a file, answers the onboarding
 * buttons, and runs three scheduled jobs: the overdue sweep, the
 * onboarding audit and the pitching alert.
 */
module Orm {
  import opened Wrappers
  import opened Text
  import opened Ordering
  import opened Dates
  import opened Tokens
  import Forms

  // ---------------------------------------------------------------------
  // Configuration

  /** What one piece contributes: its value when it is digits once stripped, else nothing. */
  function DigitPiece(p: string): seq<int>
  {
    var t := Strip(p);
    if IsDigits(t) then [DigitsValue(t) as int] else []
  }

  /** `[int(p.strip()) for p in pieces if p.strip().isdigit()]`. */
  function DigitPieces(pieces: seq<string>): seq<int>
  {
    if |pieces| == 0 then [] else DigitPiece(pieces[0]) + DigitPieces(pieces[1..])
  }

  /** `ADMIN_IDS`: one id per comma-separated piece that is all digits once stripped. */
  function OrmAdminIds(env: string): seq<int>
  {
    DigitPieces(Split(env, ','))
  }

  lemma {:induction false} DigitPiecesConcat(a: seq<string>, b: seq<string>)
    ensures DigitPieces(a + b) == DigitPieces(a) + DigitPieces(b)
    decreases |a|
  {
    if |a| > 0 {
      assert (a + b)[1..] == a[1..] + b;
      assert (a + b)[0] == a[0];
      DigitPiecesConcat(a[1..], b);
      assert DigitPieces(a + b) == DigitPiece(a[0]) + DigitPieces(a[1..] + b);
    } else {
      assert a + b == b;
    }
  }

  /**
   * The filter works piece by piece: the ids of two texts joined by a comma
   * are the ids of the first followed by those of the second.
   */
  lemma OrmAdminIdsConcat(a: string, b: string)
    ensures OrmAdminIds(a + "," + b) == OrmAdminIds(a) + OrmAdminIds(b)
  {
    assert a + "," + b == a + [','] + b;
    SplitConcat(a, b, ',');
    DigitPiecesConcat(Split(a, ','), Split(b, ','));
  }

  /**
   * A single piece gives its value when it is ASCII digits once stripped
   * and nothing otherwise: a malformed piece, a negative number or an
   * empty variable is dropped.
   */
  lemma OrmAdminIdsPiece(p: string)
    requires ',' !in p
    ensures IsDigits(Strip(p)) ==> OrmAdminIds(p) == [DigitsValue(Strip(p)) as int]
    ensures !IsDigits(Strip(p)) ==> OrmAdminIds(p) == []
  {
    SplitWhole(p, ',');
    assert [p][1..] == [];
    assert DigitPieces([p]) == DigitPiece(p) + DigitPieces([]);
  }

  /** The text that lists non-negative ids reads back as those ids. */
  lemma OrmAdminIdsRoundTrip(ids: seq<nat>)
    ensures OrmAdminIds(Join(seq(|ids|, i requires 0 <= i < |ids| => NatToString(ids[i])), ',')) == ids
  {
    var pieces := seq(|ids|, i requires 0 <= i < |ids| => NatToString(ids[i]));
    if |ids| == 0 {
      OrmAdminIdsPiece("");
    } else {
      assert forall i :: 0 <= i < |pieces| ==> ',' !in pieces[i] by {
        forall i | 0 <= i < |pieces| ensures ',' !in pieces[i] {
          assert IsDigits(pieces[i]);
        }
      }
      SplitJoin(pieces, ',');
      PiecesRead(ids, pieces);
    }
  }

  lemma {:induction false} PiecesRead(ids: seq<nat>, pieces: seq<string>)
    requires |pieces| == |ids| && forall i :: 0 <= i < |ids| ==> pieces[i] == NatToString(ids[i])
    ensures DigitPieces(pieces) == ids
    decreases |ids|
  {
    if |ids| > 0 {
      var p := pieces[0];
      var s := NatToString(ids[0]);
      assert p == s;
      StripUnpadded(p);
      PiecesRead(ids[1..], pieces[1..]);
    }
  }

  // ---------------------------------------------------------------------
  // The database URL

  /** `s.replace(pat, rep)`: every occurrence of `pat`, left to right, replaced. */
  function ReplaceAll(s: string, pat: string, rep: string): string
    requires |pat| > 0
    decreases |s|
  {
    if |s| == 0 then ""
    else if StartsWith(s, pat) then rep + ReplaceAll(s[|pat|..], pat, rep)
    else [s[0]] + ReplaceAll(s[1..], pat, rep)
  }

  const PlainScheme := "postgresql://"
  const AsyncScheme := "postgresql+asyncpg://"
  const AsyncDriver := "postgresql+asyncpg"

  /**
   * The start-up fix of `DATABASE_URL`: a set, non-empty URL that does not
   * already name the async driver has every plain scheme rewritten to the
   * async one; anything else is kept. A rewritten URL holds no plain
   * scheme any more.
   */
  function RewriteUrl(url: Option<string>): (r: Option<string>)
    ensures url.None? ==> r.None?
    ensures url.Some? && (url.value == "" || StartsWith(url.value, AsyncDriver)) ==> r == url
    ensures url.Some? && url.value != "" && !StartsWith(url.value, AsyncDriver) ==>
              r.Some? && !Contains(r.value, PlainScheme)
  {
    if url.Some? && url.value != "" && !StartsWith(url.value, AsyncDriver) then
      ReplaceAllClean(url.value);
      Some(ReplaceAll(url.value, PlainScheme, AsyncScheme))
    else url
  }

  /** Rewriting the URL twice is rewriting it once. */
  lemma RewriteIdempotent(url: Option<string>)
    ensures RewriteUrl(RewriteUrl(url)) == RewriteUrl(url)
  {
    var r := RewriteUrl(url);
    if r.Some? && r.value != "" && !StartsWith(r.value, AsyncDriver) {
      if url.Some? && url.value != "" && !StartsWith(url.value, AsyncDriver) {
        ReplaceAllAbsent(r.value, PlainScheme, AsyncScheme);
      }
    }
  }

  /** The usual Heroku-style URL gets the async driver. */
  lemma RewritePlainUrl(rest: string)
    requires !Contains(rest, PlainScheme)
    ensures RewriteUrl(Some(PlainScheme + rest)) == Some(AsyncScheme + rest)
  {
    var u := PlainScheme + rest;
    assert StartsWith(u, PlainScheme);
    assert !StartsWith(u, AsyncDriver) by { assert u[10] != AsyncDriver[10]; }
    assert u[|PlainScheme|..] == rest;
    ReplaceAllAbsent(rest, PlainScheme, AsyncScheme);
  }

  lemma ContainsCons(c: char, x: string, sub: string)
    requires |sub| > 0
    ensures Contains([c] + x, sub) <==> StartsWith([c] + x, sub) || Contains(x, sub)
  {
    assert ([c] + x)[1..] == x;
  }

  /** A text that starts with `p` after one more character starts with the rest of `p`. */
  lemma StartsTail(c: char, x: string, p: string)
    requires |p| > 0 && StartsWith([c] + x, p)
    ensures StartsWith(x, p[1..])
  {
    assert ([c] + x)[1..|p|] == x[..|p| - 1];
  }

  /** Text with no occurrence of the pattern is left as it is. */
  lemma {:induction false} ReplaceAllAbsent(s: string, pat: string, rep: string)
    requires |pat| > 0 && !Contains(s, pat)
    ensures ReplaceAll(s, pat, rep) == s
    decreases |s|
  {
    if |s| > 0 {
      assert s == [s[0]] + s[1..];
      ContainsCons(s[0], s[1..], pat);
      ReplaceAllAbsent(s[1..], pat, rep);
    }
  }

  /** A run of characters without 'p' cannot begin an occurrence of the plain scheme. */
  lemma {:induction false} SkipNoP(a: string, x: string)
    requires 'p' !in a && Contains(a + x, PlainScheme)
    ensures Contains(x, PlainScheme)
    decreases |a|
  {
    if |a| > 0 {
      var s := a + x;
      assert s == [a[0]] + (a[1..] + x);
      ContainsCons(a[0], a[1..] + x, PlainScheme);
      assert !StartsWith(s, PlainScheme) by { assert s[0] == a[0] != 'p'; }
      SkipNoP(a[1..], x);
    } else {
      assert a + x == x;
    }
  }

  /** An occurrence that does not start at the first character lies in the rest. */
  lemma StepOver(c: char, y: string)
    requires Contains([c] + y, PlainScheme) && !StartsWith([c] + y, PlainScheme)
    ensures Contains(y, PlainScheme)
  {
    ContainsCons(c, y, PlainScheme);
  }

  /** The async scheme holds no plain scheme, whatever follows it. */
  lemma AsyncPrefixClean(x: string)
    requires !Contains(x, PlainScheme)
    ensures !Contains(AsyncScheme + x, PlainScheme)
  {
    var mid, tail, last := "ostgresql+async", "pg://" + x, "g://" + x;
    AsyncPieces(x);
    AsyncNotAtStart(x);
    if Contains(AsyncScheme + x, PlainScheme) {
      StepOver('p', mid + tail);
      SkipNoP(mid, tail);
      StepOver('p', last);
      SkipNoP("g://", x);
    }
  }

  /** The async scheme cut at its two 'p's. */
  lemma AsyncPieces(x: string)
    ensures AsyncScheme + x == ['p'] + ("ostgresql+async" + ("pg://" + x))
    ensures "pg://" + x == ['p'] + ("g://" + x)
  {
  }

  /** Neither the async scheme nor its "pg://" tail opens with the plain scheme. */
  lemma AsyncNotAtStart(x: string)
    ensures !StartsWith(AsyncScheme + x, PlainScheme)
    ensures !StartsWith("pg://" + x, PlainScheme)
  {
    assert (AsyncScheme + x)[10] == '+';
    assert ("pg://" + x)[1] == 'g';
  }

  /** The rewrite of empty text is empty, and a text opening with the plain scheme opens with 'p' once rewritten. */
  lemma ReplaceAllHead(t: string)
    ensures |t| == 0 ==> ReplaceAll(t, PlainScheme, AsyncScheme) == ""
    ensures |t| > 0 && StartsWith(t, PlainScheme) ==>
              var r := ReplaceAll(t, PlainScheme, AsyncScheme); |r| > 0 && r[0] == 'p'
  {
  }

  /** A prefix without 'p' of a rewritten text was already a prefix of the original. */
  lemma {:induction false} PrefixWithoutP(t: string, w: string)
    requires 'p' !in w && StartsWith(ReplaceAll(t, PlainScheme, AsyncScheme), w)
    ensures StartsWith(t, w)
    decreases |t|
  {
    if |w| > 0 {
      var r := ReplaceAll(t, PlainScheme, AsyncScheme);
      ReplaceAllHead(t);
      if |t| > 0 && !StartsWith(t, PlainScheme) {
        var rest := ReplaceAll(t[1..], PlainScheme, AsyncScheme);
        assert r == [t[0]] + rest;
        assert w[0] == t[0];
        assert StartsWith(rest, w[1..]) by { assert rest[..|w| - 1] == r[1..|w|]; }
        PrefixWithoutP(t[1..], w[1..]);
        assert t[..|w|] == [t[0]] + t[1..][..|w| - 1];
      }
    }
  }

  /** After the rewrite no plain scheme is left. */
  lemma {:induction false} ReplaceAllClean(s: string)
    ensures !Contains(ReplaceAll(s, PlainScheme, AsyncScheme), PlainScheme)
    decreases |s|
  {
    if |s| > 0 {
      if StartsWith(s, PlainScheme) {
        ReplaceAllClean(s[|PlainScheme|..]);
        AsyncPrefixClean(ReplaceAll(s[|PlainScheme|..], PlainScheme, AsyncScheme));
      } else {
        var rest := ReplaceAll(s[1..], PlainScheme, AsyncScheme);
        ReplaceAllClean(s[1..]);
        ContainsCons(s[0], rest, PlainScheme);
        if StartsWith([s[0]] + rest, PlainScheme) {
          StartsTail(s[0], rest, PlainScheme);
          PrefixWithoutP(s[1..], PlainScheme[1..]);
        }
      }
    } else {
      assert !StartsWith("", PlainScheme);
    }
  }

  // ---------------------------------------------------------------------
  // Tables

  /** The statuses main.py writes; a new row is pending. */
  datatype OStatus = Pending | InProgress | Done | Overdue

  /** A user row, keyed by the Telegram id; roles are "founder", "ar", "designer" and "smm". */
  datatype OUser = OUser(id: int, username: Option<string>, role: string, fullName: Option<string>)

  datatype OArtist = OArtist(
    id: int, name: string, managerId: int, contractSigned: bool, musixCreated: bool,
    musixVerified: bool, youtubeNote: bool, youtubeLinked: bool, firstRelease: Option<Date>)

  datatype ORelease = ORelease(id: int, title: string, artistId: int, releaseType: string, releaseDate: Date, createdBy: int)

  /** A task row. A deadline is a timestamp at midnight, so its date says all of it. */
  datatype OTask = OTask(
    id: int, title: string, description: string, status: OStatus, deadline: Option<Date>,
    assignedTo: int, createdBy: Option<int>, releaseId: Option<int>, requiresFile: bool,
    fileUrl: Option<string>, comment: Option<string>)

  function OUserId(u: OUser): int { u.id }
  function OArtistId(a: OArtist): int { a.id }
  function OReleaseId(r: ORelease): int { r.id }
  function OTaskId(t: OTask): int { t.id }

  /** Telegram ids are the primary key of the users table. */
  predicate UniqueIds(users: seq<OUser>)
  {
    forall i, j :: 0 <= i < j < |users| ==> users[i].id != users[j].id
  }

  /** `session.get(User, uid)`. */
  function GetUser(users: seq<OUser>, uid: int): (r: Option<OUser>)
    ensures r.Some? ==> r.value in users && r.value.id == uid
    ensures r.None? <==> forall i :: 0 <= i < |users| ==> users[i].id != uid
  {
    Find(users, OUserId, uid)
  }

  /** `session.get(Task, tid)`. */
  function GetTask(tasks: seq<OTask>, tid: int): (r: Option<OTask>)
    ensures r.Some? ==> r.value in tasks && r.value.id == tid
    ensures r.None? <==> forall i :: 0 <= i < |tasks| ==> tasks[i].id != tid
  {
    Find(tasks, OTaskId, tid)
  }

  /** `session.get(Artist, aid)`. */
  function GetArtist(artists: seq<OArtist>, aid: int): (r: Option<OArtist>)
    ensures r.Some? ==> r.value in artists && r.value.id == aid
    ensures r.None? <==> forall i :: 0 <= i < |artists| ==> artists[i].id != aid
  {
    Find(artists, OArtistId, aid)
  }

  /** `select(User).where(User.role == role).limit(1)`: the first user of the role in table order. */
  function FirstWithRole(users: seq<OUser>, role: string): (r: Option<int>)
    ensures r.Some? ==> exists i :: 0 <= i < |users| && users[i].role == role && users[i].id == r.value
                                    && forall j :: 0 <= j < i ==> users[j].role != role
    ensures r.None? <==> forall i :: 0 <= i < |users| ==> users[i].role != role
  {
    if |users| == 0 then None
    else if users[0].role == role then Some(users[0].id)
    else
      var r := FirstWithRole(users[1..], role);
      if r.Some? then
        ghost var i :| 0 <= i < |users[1..]| && users[1..][i].role == role && users[1..][i].id == r.value
                      && forall j :: 0 <= j < i ==> users[1..][j].role != role;
        assert users[i + 1] == users[1..][i];
        assert forall j :: 1 <= j < i + 1 ==> users[j] == users[1..][j - 1];
        r
      else r
  }

  /** What the bot sends: a new task, a closed task (with or without its file), a late task, a burning pitch, the contract question with its two buttons. */
  datatype Alert =
    | NewTask(title: string)
    | Closed(title: string)
    | ClosedWithFile(title: string)
    | Late(title: string)
    | Burning(title: string)
    | ContractQuestion(name: string, yes: string, no: string)

  datatype Message = Message(to: int, alert: Alert)

  /** A task the generator plans: title, assignee, deadline and whether it needs a file. */
  datatype Planned = Planned(title: string, assignee: int, deadline: Date, needsFile: bool)

  /** The row a planned task becomes: described "Auto", pending, tied to the release and its author. */
  function TaskRow(id: int, p: Planned, rid: int, uid: int): OTask
  {
    OTask(id, p.title, "Auto", Pending, Some(p.deadline), p.assignee, Some(uid), Some(rid), p.needsFile, None, None)
  }

  function TaskRows(ps: seq<Planned>, start: int, rid: int, uid: int): (r: seq<OTask>)
    ensures |r| == |ps|
  {
    seq(|ps|, k requires 0 <= k < |ps| => TaskRow(start + k, ps[k], rid, uid))
  }

  /** A completion: status done and, when a file came with it, the file reference. */
  function CloseRow(t: OTask, file: Option<string>): OTask
  {
    if file.Some? then t.(status := Done, fileUrl := file) else t.(status := Done)
  }

  /** The task table once the task `tid` is completed. */
  function CloseTask(ts: seq<OTask>, tid: int, file: Option<string>): (r: seq<OTask>)
    ensures |r| == |ts| && forall i :: 0 <= i < |ts| ==> r[i].id == ts[i].id
  {
    seq(|ts|, i requires 0 <= i < |ts| => if ts[i].id == tid then CloseRow(ts[i], file) else ts[i])
  }

  /** The artist table with one artist replaced by `a`. */
  function SetArtist(artists: seq<OArtist>, a: OArtist): (r: seq<OArtist>)
    ensures |r| == |artists| && forall i :: 0 <= i < |r| ==> r[i].id == artists[i].id
  {
    seq(|artists|, i requires 0 <= i < |artists| => if artists[i].id == a.id then a else artists[i])
  }

  /** The tables of main.py and their id counters. */
  class OrmStore {
    var users: seq<OUser>
    var artists: seq<OArtist>
    var releases: seq<ORelease>
    var tasks: seq<OTask>
    var nextArtist: int
    var nextRelease: int
    var nextTask: int

    predicate Valid()
      reads this
    {
      UniqueIds(users) && Serial(artists, OArtistId, nextArtist) && Serial(releases, OReleaseId, nextRelease)
      && Serial(tasks, OTaskId, nextTask) && nextArtist >= 1 && nextRelease >= 1 && nextTask >= 1
    }

    /** The tables `create_all` makes. */
    constructor ()
      ensures Valid()
      ensures users == [] && artists == [] && releases == [] && tasks == []
      ensures nextArtist == 1 && nextRelease == 1 && nextTask == 1
    {
      users, artists, releases, tasks := [], [], [], [];
      nextArtist, nextRelease, nextTask := 1, 1, 1;
    }

    /** `session.add(User(...))` for an id with no row. */
    method AddUser(u: OUser)
      requires Valid() && GetUser(users, u.id).None?
      modifies this`users
      ensures Valid()
      ensures users == old(users) + [u]
    {
      users := users + [u];
    }

    /** `session.add(Release(...))` and the flush that gives it its id. */
    method AddRelease(title: string, artistId: int, rtype: string, date: Date, createdBy: int) returns (id: int)
      requires Valid()
      modifies this`releases, this`nextRelease
      ensures Valid()
      ensures id == old(nextRelease) && nextRelease == id + 1
      ensures releases == old(releases) + [ORelease(id, title, artistId, rtype, date, createdBy)]
    {
      id := nextRelease;
      var r := ORelease(id, title, artistId, rtype, date, createdBy);
      SerialAppend(releases, OReleaseId, nextRelease, r);
      releases := releases + [r];
      nextRelease := nextRelease + 1;
    }

    /** `session.add(Task(...))` for one planned task. */
    method AddTask(p: Planned, rid: int, uid: int)
      requires Valid()
      modifies this`tasks, this`nextTask
      ensures Valid()
      ensures tasks == old(tasks) + [TaskRow(old(nextTask), p, rid, uid)] && nextTask == old(nextTask) + 1
    {
      var t := TaskRow(nextTask, p, rid, uid);
      SerialAppend(tasks, OTaskId, nextTask, t);
      tasks := tasks + [t];
      nextTask := nextTask + 1;
    }

    /** The rows of the planned tasks, added one by one, in order. */
    method InsertTasks(ps: seq<Planned>, rid: int, uid: int)
      requires Valid()
      modifies this`tasks, this`nextTask
      ensures Valid()
      ensures tasks == old(tasks) + TaskRows(ps, old(nextTask), rid, uid) && nextTask == old(nextTask) + |ps|
    {
      var i := 0;
      while i < |ps|
        invariant 0 <= i <= |ps| && Valid()
        invariant tasks == old(tasks) + TaskRows(ps[..i], old(nextTask), rid, uid) && nextTask == old(nextTask) + i
      {
        assert TaskRows(ps[..i + 1], old(nextTask), rid, uid)
               == TaskRows(ps[..i], old(nextTask), rid, uid) + [TaskRow(old(nextTask) + i, ps[i], rid, uid)];
        AddTask(ps[i], rid, uid);
        i := i + 1;
      }
      assert ps[..i] == ps;
    }

    /** The task `tid` set done, with the file reference when one is given. */
    method Close(tid: int, file: Option<string>)
      requires Valid()
      modifies this`tasks
      ensures Valid()
      ensures tasks == CloseTask(old(tasks), tid, file)
    {
      SerialSameIds(tasks, CloseTask(tasks, tid, file), OTaskId, nextTask);
      tasks := CloseTask(tasks, tid, file);
    }

    /** `t.status = "overdue"` on the row at `i`. */
    method MarkOverdue(i: nat)
      requires Valid() && i < |tasks|
      modifies this`tasks
      ensures Valid()
      ensures tasks == old(tasks)[i := old(tasks)[i].(status := Overdue)]
    {
      var ts := tasks[i := tasks[i].(status := Overdue)];
      SerialSameIds(tasks, ts, OTaskId, nextTask);
      tasks := ts;
    }

    /** The changes to one artist's flags, committed. */
    method UpdateArtist(a: OArtist)
      requires Valid()
      modifies this`artists
      ensures Valid()
      ensures artists == SetArtist(old(artists), a)
    {
      SerialSameIds(artists, SetArtist(artists, a), OArtistId, nextArtist);
      artists := SetArtist(artists, a);
    }
  }

  // ---------------------------------------------------------------------
  // The conversation state

  /** The state groups of main.py: the release form, the file of a completion, the artist form. */
  datatype OStep =
    | Idle
    | WaitingForArtist | WaitingForTitle | WaitingForType | WaitingForDate
    | WaitingForFile
    | WaitingForName | WaitingForReleaseDate

  class OrmForm {
    var step: OStep
    var data: Forms.Data

    constructor ()
      ensures step == Idle && data == map[]
    {
      step := Idle;
      data := map[];
    }

    /** `state.set_state(s)`. */
    method SetState(s: OStep)
      modifies this`step
      ensures step == s
    {
      step := s;
    }

    /** `state.update_data(k=v)`. */
    method UpdateData(k: string, v: Forms.Val)
      modifies this`data
      ensures data == old(data)[k := v]
    {
      data := data[k := v];
    }

    /** `state.clear()`. */
    method Clear()
      modifies this
      ensures step == Idle && data == map[]
    {
      step := Idle;
      data := map[];
    }
  }

  // ---------------------------------------------------------------------
  // Generating the tasks of a release

  /** One entry of `tasks_def`: a title, an assignee if there is one, days before the release, the file flag. */
  datatype ODef = ODef(title: string, assignee: Option<int>, back: nat, needsFile: bool)

  /**
   * `tasks_def`: the upload for the A&R 14 days ahead, the cover for the
   * designer (the A&R when there is none) 20 days ahead with a file, and,
   * for an 80/20 deal only, the pitching for the A&R 10 days ahead.
   */
  function OrmSpecs(title: string, ar: Option<int>, designer: Option<int>, rtype: string): (defs: seq<ODef>)
  {
    var cover := CoverAssignee(ar, designer);
    [ODef("Загрузка " + title, ar, 14, false), ODef("Обложка " + title, cover, 20, true)]
    + (if rtype == "8020" then [ODef("Питчинг " + title, ar, 10, false)] else [])
  }

  /** `if not des_user: des_user = ar_user`. */
  function CoverAssignee(ar: Option<int>, designer: Option<int>): Option<int>
  {
    if designer.Some? then designer else ar
  }

  /** What the generator's loop did: the rows it added, the notices it sent, and whether a deadline overflowed. */
  datatype Outcome = Outcome(rows: seq<Planned>, sent: seq<Message>, failed: bool)

  /**
   * The loop over `tasks_def`: an entry without an assignee is skipped;
   * any other gets the deadline `release + offset` and a notice to its
   * assignee. A deadline before year 1 raises, which ends the loop with the
   * notices already sent and, the transaction rolled back, no row written.
   */
  function Plan(defs: seq<ODef>, rdate: Date): (r: Outcome)
    requires Valid(rdate)
    ensures |r.sent| == |r.rows|
    ensures forall i :: 0 <= i < |r.rows| ==> r.sent[i] == Message(r.rows[i].assignee, NewTask(r.rows[i].title))
    ensures forall i :: 0 <= i < |r.rows| ==> Valid(r.rows[i].deadline)
    decreases |defs|
  {
    if |defs| == 0 then Outcome([], [], false)
    else
      var d := defs[0];
      if d.assignee.None? then Plan(defs[1..], rdate)
      else match SubDays(rdate, d.back)
        case None => Outcome([], [], true)
        case Some(dl) =>
          var rest := Plan(defs[1..], rdate);
          var r := Outcome([Planned(d.title, d.assignee.value, dl, d.needsFile)] + rest.rows,
                           [Message(d.assignee.value, NewTask(d.title))] + rest.sent, rest.failed);
          assert forall i :: 1 <= i < |r.rows| ==> r.rows[i] == rest.rows[i - 1] && r.sent[i] == rest.sent[i - 1];
          r
  }

  function Then(rows: seq<Planned>, sent: seq<Message>, rest: Outcome): Outcome
  {
    Outcome(rows + rest.rows, sent + rest.sent, rest.failed)
  }

  /** The outcome of the entries from `i` on, by the entry at `i`. */
  lemma PlanAt(defs: seq<ODef>, i: nat, rdate: Date)
    requires Valid(rdate) && i < |defs|
    ensures var d := defs[i];
            Plan(defs[i..], rdate)
            == if d.assignee.None? then Plan(defs[i + 1..], rdate)
               else if SubDays(rdate, d.back).None? then Outcome([], [], true)
               else Then([Planned(d.title, d.assignee.value, SubDays(rdate, d.back).value, d.needsFile)],
                         [Message(d.assignee.value, NewTask(d.title))], Plan(defs[i + 1..], rdate))
  {
    assert defs[i..][1..] == defs[i + 1..];
  }

  /** The loop itself. */
  method PlanTasks(defs: seq<ODef>, rdate: Date) returns (rows: seq<Planned>, sent: seq<Message>, failed: bool)
    requires Valid(rdate)
    ensures Outcome(rows, sent, failed) == Plan(defs, rdate)
  {
    rows, sent, failed := [], [], false;
    var i := 0;
    assert defs[0..] == defs;
    while i < |defs|
      invariant 0 <= i <= |defs|
      invariant Then(rows, sent, Plan(defs[i..], rdate)) == Plan(defs, rdate)
    {
      PlanAt(defs, i, rdate);
      var d := defs[i];
      if d.assignee.Some? {
        var dl := SubDays(rdate, d.back);
        if dl.None? {
          return rows, sent, true;
        }
        var x, m := Planned(d.title, d.assignee.value, dl.value, d.needsFile), Message(d.assignee.value, NewTask(d.title));
        ThenAppend(rows, sent, x, m, Plan(defs[i + 1..], rdate));
        rows := rows + [x];
        sent := sent + [m];
      }
      i := i + 1;
    }
    assert defs[i..] == [];
  }

  lemma ThenAppend(rows: seq<Planned>, sent: seq<Message>, x: Planned, m: Message, rest: Outcome)
    ensures Then(rows, sent, Then([x], [m], rest)) == Then(rows + [x], sent + [m], rest)
  {
    assert rows + ([x] + rest.rows) == rows + [x] + rest.rows;
    assert sent + ([m] + rest.sent) == sent + [m] + rest.sent;
  }

  /** One step of the loop, for an entry whose deadline exists when it has an assignee. */
  lemma PlanCons(d: ODef, rest: seq<ODef>, rdate: Date)
    requires Valid(rdate) && (d.assignee.Some? ==> SubDays(rdate, d.back).Some?)
    ensures Plan([d] + rest, rdate).failed == Plan(rest, rdate).failed
    ensures Plan([d] + rest, rdate).rows
            == (if d.assignee.Some? then [Planned(d.title, d.assignee.value, SubDays(rdate, d.back).value, d.needsFile)] else [])
               + Plan(rest, rdate).rows
  {
    assert ([d] + rest)[1..] == rest;
  }

  /** Offsets are all before the release, so every planned deadline lies before the release date. */
  lemma {:induction false} PlanBefore(defs: seq<ODef>, rdate: Date)
    requires Valid(rdate) && forall k :: 0 <= k < |defs| ==> defs[k].back > 0
    ensures forall i :: 0 <= i < |Plan(defs, rdate).rows| ==> Before(Plan(defs, rdate).rows[i].deadline, rdate)
    decreases |defs|
  {
    if |defs| > 0 {
      PlanBefore(defs[1..], rdate);
    }
  }

  lemma OrmSpecsBack(title: string, ar: Option<int>, designer: Option<int>, rtype: string)
    ensures forall k :: 0 <= k < |OrmSpecs(title, ar, designer, rtype)| ==> OrmSpecs(title, ar, designer, rtype)[k].back > 0
  {
  }

  /** A date that can go back `k` days can go back fewer. */
  lemma {:induction false} SubDaysFewer(d: Date, j: nat, k: nat)
    requires Valid(d) && j <= k && SubDays(d, k).Some?
    ensures SubDays(d, j).Some?
    decreases k
  {
    if j < k {
      SubDaysFewer(d, j, k - 1);
    }
  }

  /**
   * Whenever the cover deadline exists (a release at least 20 days after
   * 0001-01-01) the loop finishes and adds, in this order: the upload for
   * the A&R if there is one, the cover for the designer or else the A&R if
   * there is either, and the pitching for the A&R on an 80/20 deal.
   */
  lemma OrmGenerated(title: string, ar: Option<int>, designer: Option<int>, rtype: string, rdate: Date)
    requires Valid(rdate) && SubDays(rdate, 20).Some?
    ensures var r := Plan(OrmSpecs(title, ar, designer, rtype), rdate);
            var cover := CoverAssignee(ar, designer);
            SubDays(rdate, 14).Some? && SubDays(rdate, 10).Some? && !r.failed
            && r.rows == (if ar.Some? then [Planned("Загрузка " + title, ar.value, SubDays(rdate, 14).value, false)] else [])
                         + (if cover.Some? then [Planned("Обложка " + title, cover.value, SubDays(rdate, 20).value, true)] else [])
                         + (if rtype == "8020" && ar.Some? then [Planned("Питчинг " + title, ar.value, SubDays(rdate, 10).value, false)] else [])
  {
    SubDaysFewer(rdate, 14, 20);
    SubDaysFewer(rdate, 10, 20);
    var t0, t1, t2 := "Загрузка " + title, "Обложка " + title, "Питчинг " + title;
    assert OrmSpecs(title, ar, designer, rtype)
           == [ODef(t0, ar, 14, false), ODef(t1, CoverAssignee(ar, designer), 20, true)]
              + (if rtype == "8020" then [ODef(t2, ar, 10, false)] else []);
    PlanShape(t0, t1, t2, ar, CoverAssignee(ar, designer), rtype == "8020", rdate);
  }

  /** `OrmGenerated` with the titles and the deal kept abstract. */
  lemma PlanShape(t0: string, t1: string, t2: string, ar: Option<int>, cover: Option<int>, pitch: bool, rdate: Date)
    requires Valid(rdate) && SubDays(rdate, 20).Some? && SubDays(rdate, 14).Some? && SubDays(rdate, 10).Some?
    ensures var r := Plan([ODef(t0, ar, 14, false), ODef(t1, cover, 20, true)] + (if pitch then [ODef(t2, ar, 10, false)] else []), rdate);
            !r.failed
            && r.rows == (if ar.Some? then [Planned(t0, ar.value, SubDays(rdate, 14).value, false)] else [])
                         + (if cover.Some? then [Planned(t1, cover.value, SubDays(rdate, 20).value, true)] else [])
                         + (if pitch && ar.Some? then [Planned(t2, ar.value, SubDays(rdate, 10).value, false)] else [])
  {
    var d0, d1 := ODef(t0, ar, 14, false), ODef(t1, cover, 20, true);
    var tail: seq<ODef> := if pitch then [ODef(t2, ar, 10, false)] else [];
    var a: seq<Planned> := if ar.Some? then [Planned(t0, ar.value, SubDays(rdate, 14).value, false)] else [];
    var b: seq<Planned> := if cover.Some? then [Planned(t1, cover.value, SubDays(rdate, 20).value, true)] else [];
    var c: seq<Planned> := if pitch && ar.Some? then [Planned(t2, ar.value, SubDays(rdate, 10).value, false)] else [];
    PitchShape(t2, ar, pitch, rdate);
    PlanCons(d1, tail, rdate);
    assert Plan([d1] + tail, rdate).rows == b + c;
    PlanCons(d0, [d1] + tail, rdate);
    assert [d0, d1] + tail == [d0] + ([d1] + tail);
    assert Plan([d0, d1] + tail, rdate).rows == a + (b + c);
    Concat3(a, b, c);
  }

  lemma PitchShape(t2: string, ar: Option<int>, pitch: bool, rdate: Date)
    requires Valid(rdate) && SubDays(rdate, 10).Some?
    ensures var r := Plan(if pitch then [ODef(t2, ar, 10, false)] else [], rdate);
            !r.failed && r.rows == if pitch && ar.Some? then [Planned(t2, ar.value, SubDays(rdate, 10).value, false)] else []
  {
    if pitch {
      PlanCons(ODef(t2, ar, 10, false), [], rdate);
      assert [ODef(t2, ar, 10, false)] + [] == [ODef(t2, ar, 10, false)];
    }
  }

  // ---------------------------------------------------------------------
  // new_release_finish

  /** The answers the release form holds by its date step. */
  predicate ReleaseFormReady(d: Forms.Data)
  {
    Forms.IsStr(d, "title") && Forms.IsInt(d, "artist_id") && Forms.IsStr(d, "rtype")
  }

  /** The generator's loop for this form, with the first A&R and the first designer of the table. */
  function ReleasePlan(users: seq<OUser>, d: Forms.Data, rdate: Date): Outcome
    requires ReleaseFormReady(d) && Valid(rdate)
  {
    Plan(OrmSpecs(d["title"].s, FirstWithRole(users, "ar"), FirstWithRole(users, "designer"), d["rtype"].s), rdate)
  }

  /**
   * `new_release_finish`: a date that is not `%d.%m.%Y` is refused with the
   * form as it was. Otherwise the generator's notices are sent; if a
   * deadline overflowed nothing is written and the form stays, else the
   * release and its tasks are committed and the form is cleared. The
   * `type_` and `sel_art_` buttons answer in any step, so the date step can
   * be reached without a title or an artist: reading the missing answer
   * raises `KeyError` before anything is written or sent, and the form
   * stays as it was.
   */
  method NewReleaseFinish(form: OrmForm, db: OrmStore, uid: int, text: string) returns (sent: seq<Message>)
    requires db.Valid() && form.step == WaitingForDate
    modifies form, db`releases, db`nextRelease, db`tasks, db`nextTask
    ensures db.Valid()
    ensures (ParseDotted(text).None? || !ReleaseFormReady(old(form.data))) ==>
              sent == [] && form.step == old(form.step) && form.data == old(form.data)
              && db.releases == old(db.releases) && db.tasks == old(db.tasks)
    ensures ParseDotted(text).Some? && ReleaseFormReady(old(form.data)) ==>
              var rdate := ParseDotted(text).value;
              var r := ReleasePlan(db.users, old(form.data), rdate);
              sent == r.sent
              && (r.failed ==> form.step == old(form.step) && form.data == old(form.data)
                               && db.releases == old(db.releases) && db.tasks == old(db.tasks))
              && (!r.failed ==>
                    form.step == Idle && form.data == map[]
                    && db.releases == old(db.releases) + [ORelease(old(db.nextRelease), old(form.data)["title"].s,
                                                                   old(form.data)["artist_id"].i, old(form.data)["rtype"].s, rdate, uid)]
                    && db.tasks == old(db.tasks) + TaskRows(r.rows, old(db.nextTask), old(db.nextRelease), uid))
  {
    var rd := ParseDotted(text);
    if rd.None? {
      return [];
    }
    if !ReleaseFormReady(form.data) {
      return [];
    }
    var rdate := rd.value;
    var title, aid, rtype := form.data["title"].s, form.data["artist_id"].i, form.data["rtype"].s;
    var ar := FirstWithRole(db.users, "ar");
    var designer := FirstWithRole(db.users, "designer");
    var rows, failed;
    rows, sent, failed := PlanTasks(OrmSpecs(title, ar, designer, rtype), rdate);
    if failed {
      return;
    }
    var rid := db.AddRelease(title, aid, rtype, rdate, uid);
    db.InsertTasks(rows, rid, uid);
    form.Clear();
  }

  // ---------------------------------------------------------------------
  // Completing a task

  /** `if task.created_by:`: the author to tell, when there is one other than 0. */
  function ToCreator(t: OTask, a: Alert): (r: seq<Message>)
    ensures |r| <= 1
  {
    if t.createdBy.Some? && t.createdBy.value != 0 then [Message(t.createdBy.value, a)] else []
  }

  /** The task a `done_<tid>` button names, if the id reads and the row exists. */
  function ClickedTask(tasks: seq<OTask>, data: string): Option<OTask>
  {
    match IntField(data, 1)
    case None => None
    case Some(tid) => GetTask(tasks, tid)
  }

  /**
   * `done_task_click`: a missing task changes nothing. A task that needs a
   * file records its id and waits for the file. Any other task is set done
   * at once and its author told.
   */
  method DoneTaskClick(form: OrmForm, db: OrmStore, data: string) returns (sent: seq<Message>)
    requires db.Valid()
    modifies form`step, form`data, db`tasks
    ensures db.Valid()
    ensures var t := ClickedTask(old(db.tasks), data);
            (t.None? ==> sent == [] && db.tasks == old(db.tasks) && form.step == old(form.step) && form.data == old(form.data))
            && (t.Some? && t.value.requiresFile ==>
                  sent == [] && db.tasks == old(db.tasks)
                  && form.step == WaitingForFile && form.data == old(form.data)["tid" := Forms.VInt(t.value.id)])
            && (t.Some? && !t.value.requiresFile ==>
                  sent == ToCreator(t.value, Closed(t.value.title)) && db.tasks == CloseTask(old(db.tasks), t.value.id, None)
                  && form.step == old(form.step) && form.data == old(form.data))
  {
    var tid := IntField(data, 1);
    if tid.None? {
      return [];
    }
    var t := GetTask(db.tasks, tid.value);
    if t.None? {
      return [];
    }
    if t.value.requiresFile {
      form.UpdateData("tid", Forms.VInt(tid.value));
      form.SetState(WaitingForFile);
      return [];
    }
    db.Close(tid.value, None);
    sent := ToCreator(t.value, Closed(t.value.title));
  }

  /** A message's attachments: a document, and the file id of the largest size of a photo. */
  datatype Attachment = Attachment(document: Option<string>, photo: Option<string>)

  /** The file id the handler keeps: the document's, else the photo's. */
  function FileId(att: Attachment): string
    requires att.document.Some? || att.photo.Some?
  {
    if att.document.Some? then att.document.value else att.photo.value
  }

  /**
   * `task_file_upload`, in the file step: a message without a document or
   * photo reaches no handler; with one, the recorded task is set done with
   * the reference `tg_file:<id>`, its author is told and the form is
   * cleared. A recorded task that has since gone raises before anything is
   * written, leaving the form in the file step.
   */
  method TaskFileUpload(form: OrmForm, db: OrmStore, att: Attachment) returns (sent: seq<Message>)
    requires db.Valid() && form.step == WaitingForFile && Forms.IsInt(form.data, "tid")
    modifies form, db`tasks
    ensures db.Valid()
    ensures var t := GetTask(old(db.tasks), old(form.data)["tid"].i);
            ((att.document.None? && att.photo.None?) || t.None? ==>
               sent == [] && db.tasks == old(db.tasks) && form.step == old(form.step) && form.data == old(form.data))
            && ((att.document.Some? || att.photo.Some?) && t.Some? ==>
                  sent == ToCreator(t.value, ClosedWithFile(t.value.title))
                  && db.tasks == CloseTask(old(db.tasks), t.value.id, Some("tg_file:" + FileId(att)))
                  && form.step == Idle && form.data == map[])
  {
    if att.document.None? && att.photo.None? {
      return [];
    }
    var fid := FileId(att);
    var t := GetTask(db.tasks, form.data["tid"].i);
    if t.None? {
      return [];
    }
    db.Close(t.value.id, Some("tg_file:" + fid));
    sent := ToCreator(t.value, ClosedWithFile(t.value.title));
    form.Clear();
  }

  /**
   * Completing a task changes that task alone: it reads back done, with the
   * file when one came, and every other id reads back as before.
   */
  lemma CloseTaskEffect(ts: seq<OTask>, tid: int, file: Option<string>)
    requires IdsIncreasing(ts, OTaskId)
    ensures GetTask(ts, tid).Some? ==> GetTask(CloseTask(ts, tid, file), tid) == Some(CloseRow(GetTask(ts, tid).value, file))
    ensures GetTask(ts, tid).Some? ==> GetTask(CloseTask(ts, tid, file), tid).value.status == Done
    ensures GetTask(ts, tid).None? ==> CloseTask(ts, tid, file) == ts
    ensures forall x :: x != tid ==> GetTask(CloseTask(ts, tid, file), x) == GetTask(ts, x)
  {
    var r := CloseTask(ts, tid, file);
    if GetTask(ts, tid).None? {
      assert forall i :: 0 <= i < |ts| ==> r[i] == ts[i];
    } else {
      CloseTaskFound(ts, tid, file);
    }
    forall x | x != tid ensures GetTask(r, x) == GetTask(ts, x) {
      GetTaskOthers(ts, r, tid, x);
    }
  }

  /** A task that is there reads back closed. */
  lemma CloseTaskFound(ts: seq<OTask>, tid: int, file: Option<string>)
    requires IdsIncreasing(ts, OTaskId) && GetTask(ts, tid).Some?
    ensures GetTask(CloseTask(ts, tid, file), tid) == Some(CloseRow(GetTask(ts, tid).value, file))
  {
    var r := CloseTask(ts, tid, file);
    GetTaskAt(ts, tid);
    var k :| 0 <= k < |ts| && ts[k] == GetTask(ts, tid).value;
    assert r[k] == CloseRow(ts[k], file);
    IdsIncreasingSameIds(ts, r);
    GetTaskUnique(r, k);
  }

  lemma GetTaskAt(ts: seq<OTask>, tid: int)
    requires GetTask(ts, tid).Some?
    ensures exists k :: 0 <= k < |ts| && ts[k] == GetTask(ts, tid).value
  {
  }

  lemma IdsIncreasingSameIds(ts: seq<OTask>, r: seq<OTask>)
    requires IdsIncreasing(ts, OTaskId) && |r| == |ts| && forall i :: 0 <= i < |ts| ==> r[i].id == ts[i].id
    ensures IdsIncreasing(r, OTaskId)
  {
  }

  /** With increasing ids, looking up the id of a row finds that row. */
  lemma {:induction false} GetTaskUnique(ts: seq<OTask>, k: nat)
    requires IdsIncreasing(ts, OTaskId) && k < |ts|
    ensures GetTask(ts, ts[k].id) == Some(ts[k])
    decreases k
  {
    if k > 0 {
      assert ts[0].id < ts[k].id;
      GetTaskUnique(ts[1..], k - 1);
    }
  }

  /** Rewriting only rows of id `tid` leaves every other lookup alone. */
  lemma {:induction false} GetTaskOthers(ts: seq<OTask>, r: seq<OTask>, tid: int, x: int)
    requires |r| == |ts| && x != tid
    requires forall i :: 0 <= i < |ts| ==> r[i].id == ts[i].id && (ts[i].id != tid ==> r[i] == ts[i])
    ensures GetTask(r, x) == GetTask(ts, x)
    decreases |ts|
  {
    if |ts| > 0 {
      GetTaskOthers(ts[1..], r[1..], tid, x);
    }
  }

  /** Clicking "done" again, or sending the file again, changes nothing more. */
  lemma CloseTaskIdempotent(ts: seq<OTask>, tid: int, file: Option<string>)
    ensures CloseTask(CloseTask(ts, tid, file), tid, file) == CloseTask(ts, tid, file)
  {
  }

  // ---------------------------------------------------------------------
  // The overdue sweep

  /** The clock the jobs read: today's date and whether any time has passed since midnight. */
  datatype Now = Now(date: Date, pastMidnight: bool)

  /** `deadline < now` for a deadline at midnight. */
  predicate PastDue(deadline: Date, now: Now)
  {
    Before(deadline, now.date) || (deadline == now.date && now.pastMidnight)
  }

  /** The rows `check_overdue_tasks` selects: past their deadline and pending or in progress. */
  predicate OverdueSelected(t: OTask, now: Now)
  {
    t.deadline.Some? && PastDue(t.deadline.value, now) && (t.status == Pending || t.status == InProgress)
  }

  /** The task table after the sweep: every selected row overdue, every other row as it was. */
  function OrmSwept(ts: seq<OTask>, now: Now): (r: seq<OTask>)
    ensures |r| == |ts|
  {
    seq(|ts|, i requires 0 <= i < |ts| => if OverdueSelected(ts[i], now) then ts[i].(status := Overdue) else ts[i])
  }

  function LateNote(t: OTask): Message
  {
    Message(t.assignedTo, Late(t.title))
  }

  /** The sweep's notices, one per selected row, in table order. */
  function LateNotes(ts: seq<OTask>, now: Now): seq<Message>
    decreases |ts|
  {
    if |ts| == 0 then []
    else LateNotes(ts[..|ts| - 1], now) + (if OverdueSelected(ts[|ts| - 1], now) then [LateNote(ts[|ts| - 1])] else [])
  }

  /**
   * `check_overdue_tasks`: the selected rows become overdue and each
   * assignee is told once. The loop runs over the table and tests each row,
   * which visits the selected rows in table order (the query itself has no
   * `ORDER BY`, so the database may return them in another order).
   */
  method CheckOverdueTasks(db: OrmStore, now: Now) returns (sent: seq<Message>)
    requires db.Valid()
    modifies db`tasks
    ensures db.Valid()
    ensures db.tasks == OrmSwept(old(db.tasks), now)
    ensures sent == LateNotes(old(db.tasks), now)
  {
    sent := [];
    ghost var table := db.tasks;
    var i := 0;
    while i < |db.tasks|
      invariant 0 <= i <= |db.tasks| && db.Valid() && |db.tasks| == |table|
      invariant forall k :: 0 <= k < |table| ==> db.tasks[k] == (if k < i then OrmSwept(table, now)[k] else table[k])
      invariant sent == LateNotes(table[..i], now)
    {
      var t := db.tasks[i];
      assert table[..i + 1][..i] == table[..i];
      if OverdueSelected(t, now) {
        db.MarkOverdue(i);
        sent := sent + [LateNote(t)];
      }
      i := i + 1;
    }
    assert table[..i] == table;
  }

  /** Nothing the sweep leaves is selected again. */
  lemma SweptNotSelected(ts: seq<OTask>, now: Now)
    ensures forall i :: 0 <= i < |ts| ==> !OverdueSelected(OrmSwept(ts, now)[i], now)
  {
  }

  /** A table with no selected row gives no notice. */
  lemma {:induction false} QuietTable(ts: seq<OTask>, now: Now)
    requires forall i :: 0 <= i < |ts| ==> !OverdueSelected(ts[i], now)
    ensures LateNotes(ts, now) == []
    decreases |ts|
  {
    if |ts| > 0 {
      QuietTable(ts[..|ts| - 1], now);
    }
  }

  /** A second sweep at the same time changes no row and tells nobody: unlike bot/jobs.py, nothing is notified twice. */
  lemma OrmSweepSecondRun(ts: seq<OTask>, now: Now)
    ensures OrmSwept(OrmSwept(ts, now), now) == OrmSwept(ts, now)
    ensures LateNotes(OrmSwept(ts, now), now) == []
  {
    SweptNotSelected(ts, now);
    QuietTable(OrmSwept(ts, now), now);
  }

  /** Done and overdue rows, and rows not yet due, come through the sweep untouched. */
  lemma OrmSweepKeeps(ts: seq<OTask>, now: Now, i: nat)
    requires i < |ts|
    requires ts[i].status == Done || ts[i].status == Overdue || ts[i].deadline.None? || !PastDue(ts[i].deadline.value, now)
    ensures OrmSwept(ts, now)[i] == ts[i]
  {
  }

  /** The notices go exactly to the selected rows' assignees. */
  lemma {:induction false} LateNotesExact(ts: seq<OTask>, now: Now)
    ensures forall n :: n in LateNotes(ts, now) ==> exists t :: t in ts && OverdueSelected(t, now) && n == LateNote(t)
    ensures forall i :: 0 <= i < |ts| && OverdueSelected(ts[i], now) ==> LateNote(ts[i]) in LateNotes(ts, now)
    decreases |ts|
  {
    if |ts| > 0 {
      var init := ts[..|ts| - 1];
      LateNotesExact(init, now);
      assert forall t :: t in init ==> t in ts;
      assert forall i :: 0 <= i < |init| ==> init[i] == ts[i];
    }
  }

  // ---------------------------------------------------------------------
  // The pitching alert

  const PitchWord := "питчинг"

  /** `Task.title.ilike("%питчинг%")` and `Task.status != "done"`. */
  predicate PitchCandidate(t: OTask)
  {
    Contains(Lower(t.title), PitchWord) && t.status != Done
  }

  /** A candidate whose deadline falls on the target date. */
  predicate BurningOn(t: OTask, target: Date)
  {
    PitchCandidate(t) && t.deadline == Some(target)
  }

  function BurningNote(adm: int, t: OTask): Message
  {
    Message(adm, Burning(t.title))
  }

  /** One alert per admin, in the order of `ADMIN_IDS`. */
  function ToAdmins(admins: seq<int>, t: OTask): (r: seq<Message>)
    ensures |r| == |admins|
  {
    seq(|admins|, i requires 0 <= i < |admins| => BurningNote(admins[i], t))
  }

  /** The alerts for a table, task by task in table order. */
  function PitchNotes(ts: seq<OTask>, target: Date, admins: seq<int>): seq<Message>
    decreases |ts|
  {
    if |ts| == 0 then []
    else PitchNotes(ts[..|ts| - 1], target, admins)
         + (if BurningOn(ts[|ts| - 1], target) then ToAdmins(admins, ts[|ts| - 1]) else [])
  }

  /** The inner loop over `ADMIN_IDS`. */
  method TellAdmins(admins: seq<int>, t: OTask) returns (sent: seq<Message>)
    ensures sent == ToAdmins(admins, t)
  {
    sent := [];
    var i := 0;
    while i < |admins|
      invariant 0 <= i <= |admins| && sent == ToAdmins(admins[..i], t)
    {
      assert admins[..i + 1][..i] == admins[..i];
      sent := sent + [BurningNote(admins[i], t)];
      i := i + 1;
    }
    assert admins[..i] == admins;
  }

  /**
   * `critical_pitching_check`: three days after today is the target (a
   * target past year 9999 raises, and nothing is sent); every admin is
   * alerted about every pitching task not done whose deadline is on the
   * target. No row is written.
   */
  method CriticalPitchingCheck(db: OrmStore, now: Now, admins: seq<int>) returns (sent: seq<Message>)
    requires Valid(now.date)
    ensures AddDays(now.date, 3).None? ==> sent == []
    ensures AddDays(now.date, 3).Some? ==> sent == PitchNotes(db.tasks, AddDays(now.date, 3).value, admins)
  {
    var target := AddDays(now.date, 3);
    if target.None? {
      return [];
    }
    var ts := db.tasks;
    sent := [];
    var i := 0;
    while i < |ts|
      invariant 0 <= i <= |ts| && sent == PitchNotes(ts[..i], target.value, admins)
    {
      assert ts[..i + 1][..i] == ts[..i];
      if BurningOn(ts[i], target.value) {
        var more := TellAdmins(admins, ts[i]);
        sent := sent + more;
      }
      i := i + 1;
    }
    assert ts[..i] == ts;
  }

  /** The alerts go to exactly the admins, about exactly the burning tasks. */
  lemma {:induction false} PitchNotesExact(ts: seq<OTask>, target: Date, admins: seq<int>)
    ensures forall n :: n in PitchNotes(ts, target, admins) ==>
              exists t, k :: t in ts && BurningOn(t, target) && 0 <= k < |admins| && n == BurningNote(admins[k], t)
    ensures forall i, k :: 0 <= i < |ts| && BurningOn(ts[i], target) && 0 <= k < |admins| ==>
              BurningNote(admins[k], ts[i]) in PitchNotes(ts, target, admins)
    decreases |ts|
  {
    if |ts| > 0 {
      var init := ts[..|ts| - 1];
      var last := ts[|ts| - 1];
      PitchNotesExact(init, target, admins);
      assert forall t :: t in init ==> t in ts;
      assert forall i :: 0 <= i < |init| ==> init[i] == ts[i];
      assert forall k :: 0 <= k < |admins| ==> ToAdmins(admins, last)[k] == BurningNote(admins[k], last);
    }
  }

  /** The generated pitching title matches the search whatever the release title. */
  lemma PitchTitleMatches(title: string)
    ensures Contains(Lower("Питчинг " + title), PitchWord)
  {
    var l := Lower("Питчинг " + title);
    assert l[..7] == PitchWord;
    ContainsAt(l, PitchWord, 0);
  }

  /**
   * The pitching task of an 80/20 release burns exactly on its deadline:
   * while it is not done it is alerted on the day three days before its
   * deadline, thirteen days before the release, and on no other day.
   */
  lemma GeneratedPitchBurns(title: string, a: int, dl: Date, rid: int, uid: int, id: int, target: Date)
    ensures var t := TaskRow(id, Planned("Питчинг " + title, a, dl, false), rid, uid);
            BurningOn(t, target) <==> target == dl
  {
    PitchTitleMatches(title);
  }

  // ---------------------------------------------------------------------
  // Onboarding

  /** The button `onb_<kind>_<answer>_<id>`. */
  function OnbToken(kind: string, answer: string, aid: int): string
  {
    Token("onb_" + kind + "_" + answer, aid)
  }

  /** The two buttons of the contract question. */
  function YesToken(aid: int): string { OnbToken("contract", "yes", aid) }
  function NoToken(aid: int): string { OnbToken("contract", "no", aid) }

  /** `onboarding_audit`'s question about one artist, to the artist's manager. */
  function Question(a: OArtist): Message
  {
    Message(a.managerId, ContractQuestion(a.name, YesToken(a.id), NoToken(a.id)))
  }

  /** The audit's questions: one per artist without a signed contract, in table order. */
  function AuditNotes(artists: seq<OArtist>): seq<Message>
    decreases |artists|
  {
    if |artists| == 0 then []
    else AuditNotes(artists[..|artists| - 1])
         + (if !artists[|artists| - 1].contractSigned then [Question(artists[|artists| - 1])] else [])
  }

  /** `onboarding_audit`. */
  method OnboardingAudit(db: OrmStore) returns (sent: seq<Message>)
    ensures sent == AuditNotes(db.artists)
  {
    var rows := db.artists;
    sent := [];
    var i := 0;
    while i < |rows|
      invariant 0 <= i <= |rows| && sent == AuditNotes(rows[..i])
    {
      assert rows[..i + 1][..i] == rows[..i];
      if !rows[i].contractSigned {
        sent := sent + [Question(rows[i])];
      }
      i := i + 1;
    }
    assert rows[..i] == rows;
  }

  /** The three fields of `onb_<type>_<answer>_<id>`. */
  datatype OnbCall = OnbCall(kind: string, answer: string, artistId: int)

  /** `otype, ans, aid = parts[1], parts[2], int(parts[3])`; `None` where that raises. */
  function OnbParse(data: string): Option<OnbCall>
  {
    var parts := Split(data, '_');
    if |parts| < 4 then None
    else match IntField(data, 3)
      case None => None
      case Some(aid) => Some(OnbCall(parts[1], parts[2], aid))
  }

  /**
   * The artist table after `onb_callback`: nothing changes for a button
   * that does not parse, for the answer "no" or for a missing artist;
   * "contract" signs the contract, "musix" records the Musixmatch profile,
   * and any other kind changes no flag.
   */
  function OnbApplied(artists: seq<OArtist>, data: string): seq<OArtist>
  {
    match OnbParse(data)
    case None => artists
    case Some(c) =>
      if c.answer == "no" then artists
      else match GetArtist(artists, c.artistId)
        case None => artists
        case Some(a) =>
          if c.kind == "contract" then SetArtist(artists, a.(contractSigned := true))
          else if c.kind == "musix" then SetArtist(artists, a.(musixCreated := true))
          else artists
  }

  /** `onb_callback`. */
  method OnbCallback(db: OrmStore, data: string)
    requires db.Valid()
    modifies db`artists
    ensures db.Valid()
    ensures db.artists == OnbApplied(old(db.artists), data)
  {
    var c := OnbParse(data);
    if c.None? || c.value.answer == "no" {
      return;
    }
    var a := GetArtist(db.artists, c.value.artistId);
    if a.None? {
      return;
    }
    if c.value.kind == "contract" {
      db.UpdateArtist(a.value.(contractSigned := true));
    } else if c.value.kind == "musix" {
      db.UpdateArtist(a.value.(musixCreated := true));
    }
  }

  /** A button `onb_<kind>_<answer>_<id>` with one-word kind and answer reads back as those three fields. */
  lemma OnbRoundTrip(kind: string, answer: string, aid: int)
    requires '_' !in kind && '_' !in answer
    ensures OnbParse(OnbToken(kind, answer, aid)) == Some(OnbCall(kind, answer, aid))
  {
    OnbHeadSplit(kind, answer);
    TokenRoundTrip("onb_" + kind + "_" + answer, aid);
  }

  /** The head `onb_<kind>_<answer>` splits into its three words. */
  lemma OnbHeadSplit(kind: string, answer: string)
    requires '_' !in kind && '_' !in answer
    ensures Split("onb_" + kind + "_" + answer, '_') == ["onb", kind, answer]
  {
    assert "onb_" + kind + "_" + answer == "onb" + "_" + kind + "_" + answer;
    SplitThreeWords("onb", kind, answer);
  }

  /** The audit's buttons read back as the contract question about that artist, answered yes or no. */
  lemma AuditButtonsRead(aid: int)
    ensures OnbParse(YesToken(aid)) == Some(OnbCall("contract", "yes", aid))
    ensures OnbParse(NoToken(aid)) == Some(OnbCall("contract", "no", aid))
  {
    OnbRoundTrip("contract", "yes", aid);
    OnbRoundTrip("contract", "no", aid);
  }

  /** With increasing ids, looking up the id of an artist finds that artist. */
  lemma {:induction false} GetArtistUnique(artists: seq<OArtist>, k: nat)
    requires IdsIncreasing(artists, OArtistId) && k < |artists|
    ensures GetArtist(artists, artists[k].id) == Some(artists[k])
    decreases k
  {
    if k > 0 {
      assert artists[0].id < artists[k].id;
      GetArtistUnique(artists[1..], k - 1);
    }
  }

  /**
   * Answering "yes" to the audit's question signs the contract of that
   * artist and changes no other row; answering "no" changes nothing.
   */
  lemma AuditAnswers(artists: seq<OArtist>, k: nat)
    requires IdsIncreasing(artists, OArtistId) && k < |artists|
    ensures var a := artists[k];
            var r := OnbApplied(artists, YesToken(a.id));
            |r| == |artists| && r[k] == a.(contractSigned := true)
            && forall i :: 0 <= i < |artists| && i != k ==> r[i] == artists[i]
    ensures OnbApplied(artists, NoToken(artists[k].id)) == artists
  {
    var a := artists[k];
    AuditButtonsRead(a.id);
    GetArtistUnique(artists, k);
    assert "yes" != "no";
    assert OnbApplied(artists, YesToken(a.id)) == SetArtist(artists, a.(contractSigned := true));
    SetArtistAt(artists, k, a.(contractSigned := true));
  }

  /** Replacing the row of one id touches that row only and keeps the ids increasing. */
  lemma SetArtistAt(artists: seq<OArtist>, k: nat, b: OArtist)
    requires IdsIncreasing(artists, OArtistId) && k < |artists| && b.id == artists[k].id
    ensures var r := SetArtist(artists, b);
            r[k] == b && (forall i :: 0 <= i < |r| && i != k ==> r[i] == artists[i])
            && IdsIncreasing(r, OArtistId)
  {
    var r := SetArtist(artists, b);
    forall i | 0 <= i < |r| && i != k
      ensures r[i] == artists[i]
    {
      assert artists[i].id != artists[k].id by {
        if i < k { assert OArtistId(artists[i]) < OArtistId(artists[k]); }
        else { assert OArtistId(artists[k]) < OArtistId(artists[i]); }
      }
    }
  }

  /** Writing a row back unchanged leaves the table as it was. */
  lemma SetArtistSame(artists: seq<OArtist>, k: nat)
    requires IdsIncreasing(artists, OArtistId) && k < |artists|
    ensures SetArtist(artists, artists[k]) == artists
  {
    SetArtistAt(artists, k, artists[k]);
  }

  /** The effect of a parsed "yes" on the row of its id. */
  lemma OnbAppliedRow(artists: seq<OArtist>, data: string, k: nat)
    requires IdsIncreasing(artists, OArtistId) && k < |artists|
    requires OnbParse(data).Some? && OnbParse(data).value.answer != "no"
    requires OnbParse(data).value.artistId == artists[k].id
    ensures var c := OnbParse(data).value;
            OnbApplied(artists, data)
            == if c.kind == "contract" then SetArtist(artists, artists[k].(contractSigned := true))
               else if c.kind == "musix" then SetArtist(artists, artists[k].(musixCreated := true))
               else artists
  {
    GetArtistUnique(artists, k);
  }

  /** Repeating a callback changes nothing more. */
  lemma OnbIdempotent(artists: seq<OArtist>, data: string)
    requires IdsIncreasing(artists, OArtistId)
    ensures OnbApplied(OnbApplied(artists, data), data) == OnbApplied(artists, data)
  {
    var c := OnbParse(data);
    if c.Some? && c.value.answer != "no" && GetArtist(artists, c.value.artistId).Some?
       && (c.value.kind == "contract" || c.value.kind == "musix") {
      var a := GetArtist(artists, c.value.artistId).value;
      var k :| 0 <= k < |artists| && artists[k] == a;
      var b := if c.value.kind == "contract" then a.(contractSigned := true) else a.(musixCreated := true);
      OnbAppliedRow(artists, data, k);
      var r := SetArtist(artists, b);
      SetArtistAt(artists, k, b);
      OnbAppliedRow(r, data, k);
      SetArtistSame(r, k);
    }
  }

  /** Every question the audit sends carries buttons that read back as "contract", answered about its artist. */
  lemma {:induction false} AuditQuestionsRead(artists: seq<OArtist>)
    ensures forall n :: n in AuditNotes(artists) ==>
              exists a :: a in artists && !a.contractSigned && n == Question(a)
    ensures forall a :: a in artists && !a.contractSigned ==>
              OnbParse(Question(a).alert.yes) == Some(OnbCall("contract", "yes", a.id))
    decreases |artists|
  {
    if |artists| > 0 {
      var init := artists[..|artists| - 1];
      AuditQuestionsRead(init);
      assert forall a :: a in init ==> a in artists;
    }
    forall a | a in artists && !a.contractSigned
      ensures OnbParse(Question(a).alert.yes) == Some(OnbCall("contract", "yes", a.id))
    {
      AuditButtonsRead(a.id);
    }
  }

  // ---------------------------------------------------------------------
  // /start

  /** The reply to /start: whether the sender was just registered, and the role it is welcomed with (`None`: access denied). */
  datatype StartReply = StartReply(registered: bool, role: Option<string>)

  lemma {:induction false} GetUserAppend(users: seq<OUser>, u: OUser, x: int)
    requires GetUser(users, u.id).None?
    ensures GetUser(users + [u], x) == if x == u.id then Some(u) else GetUser(users, x)
    decreases |users|
  {
    if |users| > 0 {
      assert (users + [u])[1..] == users[1..] + [u];
      GetUserAppend(users[1..], u, x);
    } else {
      assert ([u])[1..] == [];
    }
  }

  /**
   * `cmd_start`: a configured admin with no row is registered as founder;
   * then whoever has a row is welcomed with its role, and anyone else is
   * refused. An admin is therefore never refused.
   */
  method CmdStart(db: OrmStore, uid: int, admins: seq<int>, username: Option<string>, fullName: Option<string>)
    returns (reply: StartReply)
    requires db.Valid()
    modifies db`users
    ensures db.Valid()
    ensures var isNew := uid in admins && GetUser(old(db.users), uid).None?;
            reply.registered == isNew
            && db.users == (if isNew then old(db.users) + [OUser(uid, username, "founder", fullName)] else old(db.users))
    ensures reply.role == if GetUser(old(db.users), uid).Some? then Some(GetUser(old(db.users), uid).value.role)
                          else if uid in admins then Some("founder") else None
  {
    reply := StartReply(false, None);
    if uid in admins {
      var u := GetUser(db.users, uid);
      if u.None? {
        var nu := OUser(uid, username, "founder", fullName);
        db.AddUser(nu);
        GetUserAppend(old(db.users), nu, uid);
        reply := reply.(registered := true);
      }
    }
    var now := GetUser(db.users, uid);
    if now.Some? {
      reply := reply.(role := Some(now.value.role));
    }
  }
}
