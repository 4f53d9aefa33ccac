/**
 * The PostgreSQL store of the modular bot (bot/database.py): five tables
 * held as sequences in insertion order, the queries the handlers and jobs
 * run against them as functions, and the writes as methods of `Database`.
 * `SERIAL` ids are drawn from one counter per table.
 */
module Store {
  import opened Wrappers
  import opened Text
  import opened Ordering

  /** The task statuses the modular bot writes. */
  datatype Status = Pending | Done | Rejected | Overdue

  datatype User = User(telegramId: int, name: string, username: Option<string>, role: string)

  /** The five onboarding flags of an artist (INTEGER 0/1 columns, read as booleans). */
  datatype Flag = Contract | MmProfile | MmVerify | YtNote | YtLink

  datatype Artist = Artist(
    id: int, name: string, managerId: int, firstReleaseDate: Option<string>,
    contract: bool, mmProfile: bool, mmVerify: bool, ytNote: bool, ytLink: bool)

  datatype Release = Release(
    id: int, title: string, artistId: int, rtype: string, releaseDate: string, createdBy: int)

  datatype Task = Task(
    id: int, title: string, description: string, assignedTo: int, createdBy: int,
    releaseId: Option<int>, parentTaskId: Option<int>, deadline: string, status: Status,
    requiresFile: bool, fileUrl: Option<string>, comment: Option<string>)

  datatype Report = Report(id: int, userId: int, reportDate: string, text: string)

  /** The columns `create_task` is given; the other columns take their defaults. */
  datatype NewTask = NewTask(
    title: string, description: string, assignedTo: int, createdBy: int,
    releaseId: Option<int>, deadline: string, requiresFile: bool)

  /** The row `create_task` inserts under id `id`. */
  function Row(id: int, n: NewTask): (t: Task)
    ensures t.id == id && t.status == Pending && t.fileUrl.None? && t.comment.None? && t.parentTaskId.None?
  {
    Task(id, n.title, n.description, n.assignedTo, n.createdBy, n.releaseId, None, n.deadline,
         Pending, n.requiresFile, None, None)
  }

  /** The column each flag is stored in. */
  function ColumnName(f: Flag): string
  {
    match f
    case Contract => "flag_contract"
    case MmProfile => "flag_mm_profile"
    case MmVerify => "flag_mm_verify"
    case YtNote => "flag_yt_note"
    case YtLink => "flag_yt_link"
  }

  /** The flag a column name denotes; `None` for any other text. */
  function ColumnFlag(col: string): (r: Option<Flag>)
    ensures r.Some? ==> ColumnName(r.value) == col
    ensures r.None? ==> forall f: Flag :: ColumnName(f) != col
  {
    if col == "flag_contract" then Some(Contract)
    else if col == "flag_mm_profile" then Some(MmProfile)
    else if col == "flag_mm_verify" then Some(MmVerify)
    else if col == "flag_yt_note" then Some(YtNote)
    else if col == "flag_yt_link" then Some(YtLink)
    else None
  }

  /** `artist[column]`. */
  function FlagOf(a: Artist, f: Flag): bool
  {
    match f
    case Contract => a.contract
    case MmProfile => a.mmProfile
    case MmVerify => a.mmVerify
    case YtNote => a.ytNote
    case YtLink => a.ytLink
  }

  /** The artist with one flag column set to `v` and every other column kept. */
  function SetFlag(a: Artist, f: Flag, v: bool): (b: Artist)
    ensures FlagOf(b, f) == v
    ensures forall g: Flag :: g != f ==> FlagOf(b, g) == FlagOf(a, g)
    ensures b.id == a.id && b.name == a.name && b.managerId == a.managerId
    ensures b.firstReleaseDate == a.firstReleaseDate
  {
    match f
    case Contract => a.(contract := v)
    case MmProfile => a.(mmProfile := v)
    case MmVerify => a.(mmVerify := v)
    case YtNote => a.(ytNote := v)
    case YtLink => a.(ytLink := v)
  }

  function UserId(u: User): int { u.telegramId }
  function ArtistId(a: Artist): int { a.id }
  function ReleaseId(r: Release): int { r.id }
  function TaskId(t: Task): int { t.id }
  function ReportId(r: Report): int { r.id }

  function RoleKey(u: User): string { u.role }
  function ArtistNameKey(a: Artist): string { a.name }
  function ReleaseDateKey(r: Release): string { r.releaseDate }
  function DeadlineKey(t: Task): string { t.deadline }

  /** `telegram_id` is the primary key of `users`. */
  predicate UniqueUsers(users: seq<User>)
  {
    forall i, j :: 0 <= i < j < |users| ==> users[i].telegramId != users[j].telegramId
  }

  /** `SELECT * FROM users WHERE telegram_id=uid` (`None` when there is no such row). */
  function FindUser(users: seq<User>, uid: int): (r: Option<User>)
    ensures r.Some? ==> r.value in users && r.value.telegramId == uid
    ensures r.None? <==> forall i :: 0 <= i < |users| ==> users[i].telegramId != uid
  {
    Find(users, UserId, uid)
  }

  predicate Registered(users: seq<User>, uid: int)
  {
    FindUser(users, uid).Some?
  }

  /** In a table with unique ids, the row found for an id is the one row carrying it. */
  lemma FindUserUnique(users: seq<User>, i: nat)
    requires UniqueUsers(users) && i < |users|
    ensures FindUser(users, users[i].telegramId) == Some(users[i])
  {
    if i > 0 {
      assert users[0].telegramId != users[i].telegramId;
      FindUserUnique(users[1..], i - 1);
    }
  }

  /** The `INSERT ... ON CONFLICT (telegram_id) DO UPDATE` of `add_user`. */
  function Upsert(users: seq<User>, u: User): (r: seq<User>)
    requires UniqueUsers(users)
    ensures UniqueUsers(r)
    ensures FindUser(r, u.telegramId) == Some(u)
    ensures forall x :: x != u.telegramId ==> FindUser(r, x) == FindUser(users, x)
  {
    if Registered(users, u.telegramId) then
      var r := seq(|users|, i requires 0 <= i < |users| =>
                 if users[i].telegramId == u.telegramId then u else users[i]);
      assert forall i :: 0 <= i < |users| ==> r[i].telegramId == users[i].telegramId;
      var k :| 0 <= k < |users| && users[k].telegramId == u.telegramId;
      FindUserUnique(r, k);
      forall x | x != u.telegramId ensures FindUser(r, x) == FindUser(users, x) {
        FindSame(r, users, x);
      }
      r
    else
      var r := users + [u];
      FindUserUnique(r, |users|);
      forall x | x != u.telegramId ensures FindUser(r, x) == FindUser(users, x) {
        FindAppend(users, u, x);
      }
      r
  }

  lemma {:induction false} FindSame(a: seq<User>, b: seq<User>, x: int)
    requires |a| == |b|
    requires forall i :: 0 <= i < |a| ==> (a[i].telegramId == x <==> b[i].telegramId == x)
    requires forall i :: 0 <= i < |a| && a[i].telegramId == x ==> a[i] == b[i]
    ensures FindUser(a, x) == FindUser(b, x)
    decreases |a|
  {
    if |a| > 0 { FindSame(a[1..], b[1..], x); }
  }

  lemma {:induction false} FindAppend(users: seq<User>, u: User, x: int)
    requires x != u.telegramId
    ensures FindUser(users + [u], x) == FindUser(users, x)
    decreases |users|
  {
    if |users| > 0 {
      assert (users + [u])[1..] == users[1..] + [u];
      FindAppend(users[1..], u, x);
    }
  }

  /** `DELETE FROM users WHERE telegram_id=uid`. */
  function RemoveUser(users: seq<User>, uid: int): (r: seq<User>)
    requires UniqueUsers(users)
    ensures UniqueUsers(r)
    ensures FindUser(r, uid).None?
    ensures forall x :: x != uid ==> FindUser(r, x) == FindUser(users, x)
  {
    if |users| == 0 then []
    else
      var rest := RemoveUser(users[1..], uid);
      if users[0].telegramId == uid then
        assert forall i :: 0 < i < |users| ==> users[i].telegramId != uid;
        assert forall x :: x != uid ==> FindUser(users, x) == FindUser(users[1..], x);
        rest
      else
        var r := [users[0]] + rest;
        assert r[1..] == rest;
        forall i | 0 <= i < |rest| ensures rest[i].telegramId != users[0].telegramId {
          var x := rest[i].telegramId;
          assert x != uid;
          assert FindUser(rest, x).Some?;
          var v := FindUser(users[1..], x).value;
          assert v in users[1..] && v.telegramId == x;
        }
        assert users == [users[0]] + users[1..];
        forall x | x != uid ensures FindUser(r, x) == FindUser(users, x) {
          FindUserCons(users[0], rest, x);
          FindUserCons(users[0], users[1..], x);
        }
        r
  }

  /** The lookup tries the first row, then the rest. */
  lemma FindUserCons(u: User, rest: seq<User>, x: int)
    ensures FindUser([u] + rest, x) == if u.telegramId == x then Some(u) else FindUser(rest, x)
  {
    assert ([u] + rest)[1..] == rest;
  }

  /** One step of `_seed_admins`: insert a founder row for `uid` unless a row exists. */
  function SeedOne(users: seq<User>, uid: int): seq<User>
  {
    if Registered(users, uid) then users else users + [User(uid, "Founder", None, "founder")]
  }

  /** `_seed_admins` over the configured admin ids, in order. */
  function Seeded(users: seq<User>, adminIds: seq<int>): seq<User>
    decreases |adminIds|
  {
    if |adminIds| == 0 then users
    else SeedOne(Seeded(users, adminIds[..|adminIds| - 1]), adminIds[|adminIds| - 1])
  }

  /**
   * After seeding every configured admin has a row; rows that existed keep
   * their name and role; an admin without a row gets a founder row.
   */
  lemma {:induction false} SeededRegistersAdmins(users: seq<User>, adminIds: seq<int>)
    requires UniqueUsers(users)
    ensures UniqueUsers(Seeded(users, adminIds))
    ensures forall i :: 0 <= i < |adminIds| ==> Registered(Seeded(users, adminIds), adminIds[i])
    ensures forall x :: Registered(users, x) ==> FindUser(Seeded(users, adminIds), x) == FindUser(users, x)
    ensures forall x :: x in adminIds && !Registered(users, x) ==>
              FindUser(Seeded(users, adminIds), x) == Some(User(x, "Founder", None, "founder"))
    ensures forall x :: x !in adminIds ==> FindUser(Seeded(users, adminIds), x) == FindUser(users, x)
    decreases |adminIds|
  {
    if |adminIds| > 0 {
      var init := adminIds[..|adminIds| - 1];
      var uid := adminIds[|adminIds| - 1];
      SeededRegistersAdmins(users, init);
      var prev := Seeded(users, init);
      assert Seeded(users, adminIds) == SeedOne(prev, uid);
      assert adminIds == init + [uid];
      assert forall x :: x in adminIds <==> x in init || x == uid;
      SeedOneStep(prev, uid);
    }
  }

  /** One seeding step registers `uid`, keeps the ids unique and leaves every other id's row alone. */
  lemma SeedOneStep(users: seq<User>, uid: int)
    requires UniqueUsers(users)
    ensures UniqueUsers(SeedOne(users, uid)) && Registered(SeedOne(users, uid), uid)
    ensures Registered(users, uid) ==> SeedOne(users, uid) == users
    ensures !Registered(users, uid) ==> FindUser(SeedOne(users, uid), uid) == Some(User(uid, "Founder", None, "founder"))
    ensures forall x :: x != uid ==> FindUser(SeedOne(users, uid), x) == FindUser(users, x)
  {
    if !Registered(users, uid) {
      var nu := User(uid, "Founder", None, "founder");
      FindUserUnique(users + [nu], |users|);
      forall x | x != uid ensures FindUser(users + [nu], x) == FindUser(users, x) {
        FindAppend(users, nu, x);
      }
      assert UniqueUsers(users + [nu]);
    }
  }

  /** `SELECT * FROM users ORDER BY role`. */
  function AllUsers(users: seq<User>): (r: seq<User>)
    ensures multiset(r) == multiset(users) && SortedBy(r, RoleKey, false)
    ensures |r| == |users|
  {
    assert |multiset(users)| == |users|;
    SortBy(users, RoleKey, false)
  }

  /** `SELECT telegram_id FROM users WHERE role='designer'`: the first designer in table order. */
  function Designer(users: seq<User>): (r: Option<int>)
    ensures r.Some? ==> exists i :: 0 <= i < |users| && users[i].role == "designer" && users[i].telegramId == r.value
    ensures r.None? <==> forall i :: 0 <= i < |users| ==> users[i].role != "designer"
  {
    if |users| == 0 then None
    else if users[0].role == "designer" then Some(users[0].telegramId)
    else
      var r := Designer(users[1..]);
      assert r.Some? ==> exists i :: 0 < i < |users| && users[i].role == "designer" && users[i].telegramId == r.value by {
        if r.Some? {
          var i :| 0 <= i < |users[1..]| && users[1..][i].role == "designer" && users[1..][i].telegramId == r.value;
          assert users[i + 1] == users[1..][i];
        }
      }
      r
  }

  /** `SELECT * FROM tasks WHERE id=tid`. */
  function FindTask(ts: seq<Task>, tid: int): (r: Option<Task>)
    ensures r.Some? ==> r.value in ts && r.value.id == tid
    ensures r.None? <==> forall i :: 0 <= i < |ts| ==> ts[i].id != tid
  {
    Find(ts, TaskId, tid)
  }

  /** `SELECT * FROM artists WHERE id=aid`. */
  function FindArtist(artists: seq<Artist>, aid: int): (r: Option<Artist>)
    ensures r.Some? ==> r.value in artists && r.value.id == aid
    ensures r.None? <==> forall i :: 0 <= i < |artists| ==> artists[i].id != aid
  {
    Find(artists, ArtistId, aid)
  }

  /** `SELECT id FROM artists WHERE name=$1`: the first artist of that name. */
  function ArtistByName(artists: seq<Artist>, name: string): (r: Option<int>)
    ensures r.Some? ==> exists i :: 0 <= i < |artists| && artists[i].name == name && artists[i].id == r.value
    ensures r.None? <==> forall i :: 0 <= i < |artists| ==> artists[i].name != name
  {
    if |artists| == 0 then None
    else if artists[0].name == name then Some(artists[0].id)
    else
      var r := ArtistByName(artists[1..], name);
      assert r.Some? ==> exists i :: 0 < i < |artists| && artists[i].name == name && artists[i].id == r.value by {
        if r.Some? {
          var i :| 0 <= i < |artists[1..]| && artists[1..][i].name == name && artists[1..][i].id == r.value;
          assert artists[i + 1] == artists[1..][i];
        }
      }
      r
  }

  /** `SELECT * FROM artists ORDER BY name`. */
  function AllArtists(artists: seq<Artist>): (r: seq<Artist>)
    ensures multiset(r) == multiset(artists) && SortedBy(r, ArtistNameKey, false)
    ensures |r| == |artists|
  {
    assert |multiset(artists)| == |artists|;
    SortBy(artists, ArtistNameKey, false)
  }

  predicate Unsigned(a: Artist) { !a.contract }

  /** `SELECT * FROM artists WHERE flag_contract=0`. */
  function UnsignedArtists(artists: seq<Artist>): (r: seq<Artist>)
    ensures forall i :: 0 <= i < |r| ==> r[i] in artists && !r[i].contract
    ensures forall i :: 0 <= i < |artists| && !artists[i].contract ==> artists[i] in r
  {
    Filter(artists, Unsigned)
  }

  /** `SELECT * FROM artists WHERE {column}=value`. */
  function ArtistsByFlag(artists: seq<Artist>, f: Flag, v: bool): (r: seq<Artist>)
    ensures forall i :: 0 <= i < |r| ==> r[i] in artists && FlagOf(r[i], f) == v
    ensures forall i :: 0 <= i < |artists| && FlagOf(artists[i], f) == v ==> artists[i] in r
  {
    Filter(artists, (a: Artist) => FlagOf(a, f) == v)
  }

  /** `UPDATE artists SET {column}=value WHERE id=aid`. */
  function WithArtistFlag(artists: seq<Artist>, aid: int, f: Flag, v: bool): (r: seq<Artist>)
    ensures |r| == |artists|
    ensures forall i :: 0 <= i < |r| ==> r[i].id == artists[i].id
    ensures forall i :: 0 <= i < |r| && artists[i].id == aid ==> r[i] == SetFlag(artists[i], f, v)
    ensures forall i :: 0 <= i < |r| && artists[i].id != aid ==> r[i] == artists[i]
  {
    seq(|artists|, i requires 0 <= i < |artists| =>
      if artists[i].id == aid then SetFlag(artists[i], f, v) else artists[i])
  }

  /** Truthiness of an optional text in Python: `None` and `""` are false. */
  predicate Truthy(o: Option<string>)
  {
    o.Some? && o.value != ""
  }

  /**
   * `update_task_status` on one row: status, file and comment are all
   * written when a file or a comment is truthy, the status alone otherwise.
   */
  function StatusUpdated(t: Task, status: Status, fileUrl: Option<string>, comment: Option<string>): (u: Task)
    ensures u.status == status && u.id == t.id
    ensures Truthy(fileUrl) || Truthy(comment) ==> u.fileUrl == fileUrl && u.comment == comment
    ensures !(Truthy(fileUrl) || Truthy(comment)) ==> u.fileUrl == t.fileUrl && u.comment == t.comment
    ensures u == t.(status := u.status, fileUrl := u.fileUrl, comment := u.comment)
  {
    if Truthy(fileUrl) || Truthy(comment) then t.(status := status, fileUrl := fileUrl, comment := comment)
    else t.(status := status)
  }

  /** `UPDATE tasks SET ... WHERE id=tid`. */
  function WithStatus(ts: seq<Task>, tid: int, status: Status, fileUrl: Option<string>, comment: Option<string>): (r: seq<Task>)
    ensures |r| == |ts|
    ensures forall i :: 0 <= i < |r| ==> r[i].id == ts[i].id
    ensures forall i :: 0 <= i < |r| && ts[i].id == tid ==> r[i] == StatusUpdated(ts[i], status, fileUrl, comment)
    ensures forall i :: 0 <= i < |r| && ts[i].id != tid ==> r[i] == ts[i]
  {
    seq(|ts|, i requires 0 <= i < |ts| =>
      if ts[i].id == tid then StatusUpdated(ts[i], status, fileUrl, comment) else ts[i])
  }

  predicate IsActive(t: Task) { t.status != Done && t.status != Rejected }

  /** `status NOT IN ('done', 'rejected') ORDER BY deadline`: every open task, earliest deadline first. */
  function ActiveTasks(ts: seq<Task>): (r: seq<Task>)
    ensures multiset(r) == multiset(Filter(ts, IsActive))
    ensures forall i :: 0 <= i < |r| ==> r[i] in ts && IsActive(r[i])
    ensures SortedBy(r, DeadlineKey, false)
  {
    var f := Filter(ts, IsActive);
    var r := SortBy(f, DeadlineKey, false);
    assert forall i :: 0 <= i < |r| ==> r[i] in multiset(f);
    r
  }

  /** The open tasks assigned to `uid`, in table order. */
  function AssignedActive(ts: seq<Task>, uid: int): (r: seq<Task>)
    ensures forall i :: 0 <= i < |r| ==> r[i] in ts && r[i].assignedTo == uid && IsActive(r[i])
    ensures forall i :: 0 <= i < |ts| && ts[i].assignedTo == uid && IsActive(ts[i]) ==> ts[i] in r
  {
    Filter(ts, (t: Task) => t.assignedTo == uid && IsActive(t))
  }

  /** The same with `assigned_to=uid`: the open tasks of `uid`, earliest deadline first. */
  function ActiveTasksOf(ts: seq<Task>, uid: int): (r: seq<Task>)
    ensures multiset(r) == multiset(AssignedActive(ts, uid))
    ensures forall i :: 0 <= i < |r| ==> r[i] in ts && r[i].assignedTo == uid && IsActive(r[i])
    ensures SortedBy(r, DeadlineKey, false)
  {
    var f := AssignedActive(ts, uid);
    var r := SortBy(f, DeadlineKey, false);
    assert forall i :: 0 <= i < |r| ==> r[i] in ts && r[i].assignedTo == uid && IsActive(r[i]) by {
      forall i | 0 <= i < |r| ensures r[i] in ts && r[i].assignedTo == uid && IsActive(r[i]) {
        assert r[i] in multiset(f);
        var j :| 0 <= j < |f| && f[j] == r[i];
      }
    }
    r
  }

  /** `status='done'`, and `assigned_to=assignee` when one is given. */
  predicate DoneBy(assignee: Option<int>, t: Task)
  {
    t.status == Done && (assignee.None? || t.assignedTo == assignee.value)
  }

  /** The finished tasks of the assignee (of everyone when none is given), in table order. */
  function DoneTasks(ts: seq<Task>, assignee: Option<int>): (r: seq<Task>)
    ensures forall i :: 0 <= i < |r| ==> r[i] in ts && DoneBy(assignee, r[i])
    ensures forall i :: 0 <= i < |ts| && DoneBy(assignee, ts[i]) ==> ts[i] in r
  {
    Filter(ts, (t: Task) => DoneBy(assignee, t))
  }

  /**
   * `get_task_history`, `... status='done' ORDER BY deadline DESC LIMIT 20`:
   * the twenty finished tasks with the latest deadlines (all of them when
   * there are fewer), latest first; no finished task left out has a later
   * deadline than one shown.
   */
  function History(ts: seq<Task>, assignee: Option<int>): (r: seq<Task>)
    ensures |r| <= 20
    ensures forall i :: 0 <= i < |r| ==> r[i] in ts && r[i].status == Done
    ensures forall i :: 0 <= i < |r| && assignee.Some? ==> r[i].assignedTo == assignee.value
    ensures SortedBy(r, DeadlineKey, true)
    ensures |r| == (if |DoneTasks(ts, assignee)| < 20 then |DoneTasks(ts, assignee)| else 20)
    ensures multiset(r) <= multiset(DoneTasks(ts, assignee))
    ensures forall t :: t in multiset(DoneTasks(ts, assignee)) - multiset(r) ==>
              forall j :: 0 <= j < |r| ==> !Less(r[j].deadline, t.deadline)
  {
    Top(DoneTasks(ts, assignee), DeadlineKey, true, 20)
  }

  /** The releases a user may list: all of them for a founder, their own for anyone else. */
  function ReleaseScope(releases: seq<Release>, role: string, uid: int): (r: seq<Release>)
    ensures forall i :: 0 <= i < |r| ==> r[i] in releases && (role != "founder" ==> r[i].createdBy == uid)
    ensures role == "founder" ==> r == releases
    ensures role != "founder" ==> forall i :: 0 <= i < |releases| && releases[i].createdBy == uid ==> releases[i] in r
  {
    if role == "founder" then releases else Filter(releases, (x: Release) => x.createdBy == uid)
  }

  const PageSize: nat := 5

  datatype ReleasePage = ReleasePage(rows: seq<Release>, total: nat)

  /**
   * `get_releases_paginated`: the `page`-th slice of five of the user's
   * releases, latest release date first, and how many releases the user has.
   */
  function ReleasesPage(releases: seq<Release>, role: string, uid: int, page: nat): (p: ReleasePage)
    ensures p.total == |ReleaseScope(releases, role, uid)|
    ensures |p.rows| <= PageSize
    ensures |p.rows| == (if page * PageSize >= p.total then 0
                         else if p.total - page * PageSize < PageSize then p.total - page * PageSize
                         else PageSize)
    ensures SortedBy(p.rows, ReleaseDateKey, true)
    ensures forall i :: 0 <= i < |p.rows| ==> p.rows[i] in ReleaseScope(releases, role, uid)
  {
    var scope := ReleaseScope(releases, role, uid);
    var sorted := ScopeByDate(releases, role, uid);
    SortByMembers(scope, ReleaseDateKey, true);
    PageOfSorted(sorted, ReleaseDateKey, true, page * PageSize, PageSize);
    ReleasePage(Page(sorted, page * PageSize, PageSize), |scope|)
  }

  /** The releases a user may list, latest release date first: the order the pages cut. */
  function ScopeByDate(releases: seq<Release>, role: string, uid: int): (r: seq<Release>)
    ensures multiset(r) == multiset(ReleaseScope(releases, role, uid))
    ensures SortedBy(r, ReleaseDateKey, true)
  {
    SortBy(ReleaseScope(releases, role, uid), ReleaseDateKey, true)
  }

  /** The rows of pages `0` to `k - 1`, one after the other. */
  function PagesUpTo(releases: seq<Release>, role: string, uid: int, k: nat): seq<Release>
  {
    if k == 0 then [] else PagesUpTo(releases, role, uid, k - 1) + ReleasesPage(releases, role, uid, k - 1).rows
  }

  /** The first `k` pages are the first `5k` releases in date order (all of them once `5k` reaches the total). */
  lemma PagesPrefix(releases: seq<Release>, role: string, uid: int, k: nat)
    ensures var all := ScopeByDate(releases, role, uid);
            PagesUpTo(releases, role, uid, k) == all[..if k * PageSize < |all| then k * PageSize else |all|]
  {
    PagesArePaged(releases, role, uid, k);
    PagedPrefix(ScopeByDate(releases, role, uid), PageSize, k);
  }

  /** The pages the bot serves are the pages of the date order. */
  lemma {:induction false} PagesArePaged(releases: seq<Release>, role: string, uid: int, k: nat)
    ensures PagesUpTo(releases, role, uid, k) == Paged(ScopeByDate(releases, role, uid), PageSize, k)
  {
    if k > 0 {
      PagesArePaged(releases, role, uid, k - 1);
      PageRows(releases, role, uid, k - 1);
    }
  }

  /** A page is the slice of the date order at its offset. */
  lemma PageRows(releases: seq<Release>, role: string, uid: int, page: nat)
    ensures ReleasesPage(releases, role, uid, page).rows == Page(ScopeByDate(releases, role, uid), page * PageSize, PageSize)
  {
  }

  /** Enough pages hold every release the user may list, each exactly once. */
  lemma PagesCover(releases: seq<Release>, role: string, uid: int, k: nat)
    requires k * PageSize >= |ReleaseScope(releases, role, uid)|
    ensures multiset(PagesUpTo(releases, role, uid, k)) == multiset(ReleaseScope(releases, role, uid))
  {
    var all := ScopeByDate(releases, role, uid);
    PagesPrefix(releases, role, uid, k);
    assert |all| == |ReleaseScope(releases, role, uid)| by {
      assert |multiset(all)| == |multiset(ReleaseScope(releases, role, uid))|;
    }
    assert all[..|all|] == all;
  }

  /** No row of a page has a later release date than a row of the page before it. */
  lemma PagesOrdered(releases: seq<Release>, role: string, uid: int, page: nat)
    requires page > 0
    ensures var prev, cur := ReleasesPage(releases, role, uid, page - 1).rows, ReleasesPage(releases, role, uid, page).rows;
            forall i, j :: 0 <= i < |prev| && 0 <= j < |cur| ==> !Less(prev[i].releaseDate, cur[j].releaseDate)
  {
    var prev, cur := ReleasesPage(releases, role, uid, page - 1).rows, ReleasesPage(releases, role, uid, page).rows;
    PageRows(releases, role, uid, page - 1);
    PageRows(releases, role, uid, page);
    PagesInOrder(ScopeByDate(releases, role, uid), ReleaseDateKey, true, PageSize, page);
    forall i, j | 0 <= i < |prev| && 0 <= j < |cur| ensures !Less(prev[i].releaseDate, cur[j].releaseDate) {
      assert !Ahead(ReleaseDateKey, true, cur[j], prev[i]);
    }
  }

  /**
   * `SELECT * FROM releases ORDER BY release_date DESC LIMIT 10`: the ten
   * releases with the latest dates (all of them when there are fewer),
   * latest first; no release left out has a later date than one shown.
   */
  function LastReleases(releases: seq<Release>): (r: seq<Release>)
    ensures |r| == (if |releases| < 10 then |releases| else 10) && SortedBy(r, ReleaseDateKey, true)
    ensures multiset(r) <= multiset(releases) && forall i :: 0 <= i < |r| ==> r[i] in releases
    ensures forall x :: x in multiset(releases) - multiset(r) ==>
              forall j :: 0 <= j < |r| ==> !Less(r[j].releaseDate, x.releaseDate)
  {
    Top(releases, ReleaseDateKey, true, 10)
  }

  /** `SELECT * FROM releases WHERE release_date=date` (the caller formats today plus the days ahead). */
  function ReleasesOn(releases: seq<Release>, date: string): (r: seq<Release>)
    ensures forall i :: 0 <= i < |r| ==> r[i] in releases && r[i].releaseDate == date
    ensures forall i :: 0 <= i < |releases| && releases[i].releaseDate == date ==> releases[i] in r
  {
    Filter(releases, (x: Release) => x.releaseDate == date)
  }

  const PitchingPrefix := "📝 Питчинг"

  /** `WHERE release_id=rid AND title LIKE '📝 Питчинг%'`: the first such task. */
  function PitchingTask(ts: seq<Task>, rid: int): (r: Option<Task>)
    ensures r.Some? ==> r.value in ts && r.value.releaseId == Some(rid) && StartsWith(r.value.title, PitchingPrefix)
    ensures r.None? <==> forall i :: 0 <= i < |ts| ==> !(ts[i].releaseId == Some(rid) && StartsWith(ts[i].title, PitchingPrefix))
  {
    if |ts| == 0 then None
    else if ts[0].releaseId == Some(rid) && StartsWith(ts[0].title, PitchingPrefix) then Some(ts[0])
    else PitchingTask(ts[1..], rid)
  }

  /** The tasks `get_overdue_tasks(today)` selects: deadline text below today's, not done. */
  predicate OverdueCandidate(t: Task, today: string)
  {
    Less(t.deadline, today) && t.status != Done
  }

  /** `SELECT * FROM tasks WHERE deadline < today AND status != 'done'`. */
  function OverdueTasks(ts: seq<Task>, today: string): (r: seq<Task>)
    ensures forall i :: 0 <= i < |r| ==> r[i] in ts && OverdueCandidate(r[i], today)
    ensures forall i :: 0 <= i < |ts| && OverdueCandidate(ts[i], today) ==> ts[i] in r
  {
    Filter(ts, (t: Task) => OverdueCandidate(t, today))
  }

  /** `SELECT * FROM tasks WHERE deadline = date AND status != 'done'`. */
  function TasksDueOn(ts: seq<Task>, date: string): (r: seq<Task>)
    ensures forall i :: 0 <= i < |r| ==> r[i] in ts && r[i].deadline == date && r[i].status != Done
    ensures forall i :: 0 <= i < |ts| && ts[i].deadline == date && ts[i].status != Done ==> ts[i] in r
  {
    Filter(ts, (t: Task) => t.deadline == date && t.status != Done)
  }

  /** `WHERE user_id=uid`: the user's reports, in table order. */
  function ReportsBy(reports: seq<Report>, uid: int): (r: seq<Report>)
    ensures forall i :: 0 <= i < |r| ==> r[i] in reports && r[i].userId == uid
    ensures forall i :: 0 <= i < |reports| && reports[i].userId == uid ==> reports[i] in r
  {
    Filter(reports, (x: Report) => x.userId == uid)
  }

  /**
   * `SELECT * FROM reports WHERE user_id=uid ORDER BY id DESC LIMIT 20`:
   * the user's twenty newest reports, newest first.
   */
  function ReportsOf(reports: seq<Report>, uid: int): (r: seq<Report>)
    requires IdsIncreasing(reports, ReportId)
    ensures |r| == (if |ReportsBy(reports, uid)| < 20 then |ReportsBy(reports, uid)| else 20)
    ensures forall i :: 0 <= i < |r| ==> r[i] in reports && r[i].userId == uid
    ensures forall i, j :: 0 <= i < j < |r| ==> r[i].id > r[j].id
    ensures forall i, j :: 0 <= i < |reports| && 0 <= j < |r| && reports[i].userId == uid && reports[i] !in r
              ==> reports[i].id < r[j].id
  {
    var mine := ReportsBy(reports, uid);
    var r := Take(Reverse(mine), 20);
    ReportsOfNewest(reports, uid, mine, r);
    r
  }

  lemma ReportsOfNewest(reports: seq<Report>, uid: int, mine: seq<Report>, r: seq<Report>)
    requires IdsIncreasing(reports, ReportId) && mine == ReportsBy(reports, uid)
    requires r == Take(Reverse(mine), 20)
    ensures forall i :: 0 <= i < |r| ==> r[i] in reports && r[i].userId == uid
    ensures forall i, j :: 0 <= i < j < |r| ==> r[i].id > r[j].id
    ensures forall i, j :: 0 <= i < |reports| && 0 <= j < |r| && reports[i].userId == uid && reports[i] !in r
              ==> reports[i].id < r[j].id
  {
    ReportsOfMembers(reports, uid, mine, r);
    FilterKeepsIncreasing(reports, (x: Report) => x.userId == uid, ReportId);
    ReportsOfOlder(reports, uid, mine, r);
  }

  lemma ReportsOfMembers(reports: seq<Report>, uid: int, mine: seq<Report>, r: seq<Report>)
    requires mine == ReportsBy(reports, uid)
    requires r == Take(Reverse(mine), 20)
    ensures forall i :: 0 <= i < |r| ==> r[i] in reports && r[i].userId == uid
  {
    var rev := Reverse(mine);
    forall i | 0 <= i < |r|
      ensures r[i] in reports && r[i].userId == uid
    {
      assert r[i] == rev[i] == mine[|mine| - 1 - i];
    }
  }

  lemma ReportsOfOlder(reports: seq<Report>, uid: int, mine: seq<Report>, r: seq<Report>)
    requires mine == ReportsBy(reports, uid) && IdsIncreasing(mine, ReportId)
    requires r == Take(Reverse(mine), 20)
    ensures forall i, j :: 0 <= i < j < |r| ==> r[i].id > r[j].id
    ensures forall i, j :: 0 <= i < |reports| && 0 <= j < |r| && reports[i].userId == uid && reports[i] !in r
              ==> reports[i].id < r[j].id
  {
    NewestFirst(mine, ReportId, 20);
    forall i, j | 0 <= i < |reports| && 0 <= j < |r| && reports[i].userId == uid && reports[i] !in r
      ensures reports[i].id < r[j].id
    {
      MineHas(reports, uid, mine, i);
    }
  }

  lemma MineHas(reports: seq<Report>, uid: int, mine: seq<Report>, i: nat)
    requires mine == ReportsBy(reports, uid)
    requires i < |reports| && reports[i].userId == uid
    ensures exists k :: 0 <= k < |mine| && mine[k] == reports[i]
  {
    assert ((x: Report) => x.userId == uid)(reports[i]);
    assert reports[i] in mine;
  }

  /** The bot's PostgreSQL database. */
  class Database {
    var users: seq<User>
    var artists: seq<Artist>
    var releases: seq<Release>
    var tasks: seq<Task>
    var reports: seq<Report>
    var nextArtist: int
    var nextRelease: int
    var nextTask: int
    var nextReport: int

    predicate Valid()
      reads this
    {
      UniqueUsers(users) && Serial(artists, ArtistId, nextArtist) && Serial(releases, ReleaseId, nextRelease)
      && Serial(tasks, TaskId, nextTask) && Serial(reports, ReportId, nextReport) && nextArtist >= 1
      && nextRelease >= 1 && nextTask >= 1 && nextReport >= 1
    }

    /** The tables `init_db` creates, before seeding. */
    constructor ()
      ensures Valid()
      ensures users == [] && artists == [] && releases == [] && tasks == [] && reports == []
      ensures nextArtist == 1 && nextRelease == 1 && nextTask == 1 && nextReport == 1
    {
      users, artists, releases, tasks, reports := [], [], [], [], [];
      nextArtist, nextRelease, nextTask, nextReport := 1, 1, 1, 1;
    }

    /** `_seed_admins`: a founder row for every configured admin id that has none. */
    method SeedAdmins(adminIds: seq<int>)
      requires Valid()
      modifies this`users
      ensures Valid()
      ensures users == Seeded(old(users), adminIds)
    {
      var i := 0;
      while i < |adminIds|
        invariant 0 <= i <= |adminIds|
        invariant users == Seeded(old(users), adminIds[..i])
        invariant Valid()
      {
        var uid := adminIds[i];
        ghost var prev := users;
        SeedOneStep(prev, uid);
        var existing := FindUser(users, uid);
        if existing.None? {
          users := users + [User(uid, "Founder", None, "founder")];
        }
        assert users == SeedOne(prev, uid);
        assert adminIds[..i + 1][..i] == adminIds[..i];
        i := i + 1;
      }
      assert adminIds[..i] == adminIds;
    }

    /** `add_user`: insert the user, or overwrite name, role and username of the existing row. */
    method AddUser(uid: int, name: string, role: string, username: Option<string>)
      requires Valid()
      modifies this`users
      ensures Valid()
      ensures users == Upsert(old(users), User(uid, name, username, role))
    {
      users := Upsert(users, User(uid, name, username, role));
    }

    /** `delete_user`. */
    method DeleteUser(uid: int)
      requires Valid()
      modifies this`users
      ensures Valid()
      ensures users == RemoveUser(old(users), uid)
    {
      users := RemoveUser(users, uid);
    }

    /** `delete_release_cascade`: the release's tasks first, then the release. */
    method DeleteReleaseCascade(rid: int)
      requires Valid()
      modifies this`tasks, this`releases
      ensures Valid()
      ensures tasks == Filter(old(tasks), (t: Task) => t.releaseId != Some(rid))
      ensures releases == Filter(old(releases), (r: Release) => r.id != rid)
    {
      SerialFilter(tasks, (t: Task) => t.releaseId != Some(rid), TaskId, nextTask);
      SerialFilter(releases, (r: Release) => r.id != rid, ReleaseId, nextRelease);
      tasks := Filter(tasks, (t: Task) => t.releaseId != Some(rid));
      releases := Filter(releases, (r: Release) => r.id != rid);
    }

    /** `delete_task`. */
    method DeleteTask(tid: int)
      requires Valid()
      modifies this`tasks
      ensures Valid()
      ensures tasks == Filter(old(tasks), (t: Task) => t.id != tid)
    {
      SerialFilter(tasks, (t: Task) => t.id != tid, TaskId, nextTask);
      tasks := Filter(tasks, (t: Task) => t.id != tid);
    }

    /** `create_task`: one new pending row under the next id. */
    method CreateTask(n: NewTask)
      requires Valid()
      modifies this`tasks, this`nextTask
      ensures Valid()
      ensures tasks == old(tasks) + [Row(old(nextTask), n)] && nextTask == old(nextTask) + 1
    {
      SerialAppend(tasks, TaskId, nextTask, Row(nextTask, n));
      tasks := tasks + [Row(nextTask, n)];
      nextTask := nextTask + 1;
    }

    /** `update_task_status`. */
    method UpdateTaskStatus(tid: int, status: Status, fileUrl: Option<string>, comment: Option<string>)
      requires Valid()
      modifies this`tasks
      ensures Valid()
      ensures tasks == WithStatus(old(tasks), tid, status, fileUrl, comment)
    {
      SerialSameIds(tasks, WithStatus(tasks, tid, status, fileUrl, comment), TaskId, nextTask);
      tasks := WithStatus(tasks, tid, status, fileUrl, comment);
    }

    /** `mark_task_overdue`. */
    method MarkTaskOverdue(tid: int)
      requires Valid()
      modifies this`tasks
      ensures Valid()
      ensures tasks == WithStatus(old(tasks), tid, Overdue, None, None)
    {
      SerialSameIds(tasks, WithStatus(tasks, tid, Overdue, None, None), TaskId, nextTask);
      tasks := WithStatus(tasks, tid, Overdue, None, None);
    }

    /** `create_report`. */
    method CreateReport(uid: int, date: string, text: string)
      requires Valid()
      modifies this`reports, this`nextReport
      ensures Valid()
      ensures reports == old(reports) + [Report(old(nextReport), uid, date, text)]
      ensures nextReport == old(nextReport) + 1
    {
      SerialAppend(reports, ReportId, nextReport, Report(nextReport, uid, date, text));
      reports := reports + [Report(nextReport, uid, date, text)];
      nextReport := nextReport + 1;
    }

    /** `update_artist_flag`. */
    method UpdateArtistFlag(aid: int, f: Flag, v: bool)
      requires Valid()
      modifies this`artists
      ensures Valid()
      ensures artists == WithArtistFlag(old(artists), aid, f, v)
    {
      SerialSameIds(artists, WithArtistFlag(artists, aid, f, v), ArtistId, nextArtist);
      artists := WithArtistFlag(artists, aid, f, v);
    }

    /** `create_artist ... RETURNING id`: every flag starts at 0. */
    method CreateArtist(name: string, managerId: int, firstReleaseDate: Option<string>) returns (id: int)
      requires Valid()
      modifies this`artists, this`nextArtist
      ensures Valid()
      ensures id == old(nextArtist) && nextArtist == old(nextArtist) + 1
      ensures artists == old(artists) + [Artist(id, name, managerId, firstReleaseDate, false, false, false, false, false)]
    {
      id := nextArtist;
      SerialAppend(artists, ArtistId, nextArtist, Artist(id, name, managerId, firstReleaseDate, false, false, false, false, false));
      artists := artists + [Artist(id, name, managerId, firstReleaseDate, false, false, false, false, false)];
      nextArtist := nextArtist + 1;
    }

    /** `create_release ... RETURNING id`. */
    method CreateRelease(title: string, artistId: int, rtype: string, releaseDate: string, createdBy: int)
      returns (id: int)
      requires Valid()
      modifies this`releases, this`nextRelease
      ensures Valid()
      ensures id == old(nextRelease) && nextRelease == old(nextRelease) + 1
      ensures releases == old(releases) + [Release(id, title, artistId, rtype, releaseDate, createdBy)]
    {
      id := nextRelease;
      SerialAppend(releases, ReleaseId, nextRelease, Release(id, title, artistId, rtype, releaseDate, createdBy));
      releases := releases + [Release(id, title, artistId, rtype, releaseDate, createdBy)];
      nextRelease := nextRelease + 1;
    }
  }
}
