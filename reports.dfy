/**
 * bot/handlers/reports.py: the SMM specialist's daily report. Only the
 * smm role may write one or read them back; the history lists the
 * twenty newest reports and is cut at 4000 characters.
 */
module Reports {
  import opened Text
  import opened Ordering
  import opened Dates
  import opened Store
  import opened Forms
  import opened Keyboards

  predicate IsSmm(users: seq<User>, uid: int)
    requires Registered(users, uid)
  {
    FindUser(users, uid).value.role == "smm"
  }

  /** `report_start`: the smm role enters the text step; anyone else is refused with the form as it was. */
  method ReportStart(ctx: FsmContext, db: Database, uid: int) returns (refused: bool)
    requires ctx.Valid() && Registered(db.users, uid)
    modifies ctx`step
    ensures ctx.Valid()
    ensures refused <==> !IsSmm(db.users, uid)
    ensures refused ==> ctx.step == old(ctx.step)
    ensures !refused ==> ctx.step == SmmReportText
  {
    var user := FindUser(db.users, uid).value;
    if user.role != "smm" {
      return true;
    }
    ctx.SetState(SmmReportText);
    refused := false;
  }

  /**
   * `report_submit`: the cancel text clears the form and stores nothing;
   * any other text is stored as a report of the author dated today, and
   * the form is cleared.
   */
  method ReportSubmit(ctx: FsmContext, db: Database, uid: int, text: string, today: Date)
    requires ctx.Valid() && ctx.step == SmmReportText && db.Valid() && Valid(today)
    modifies ctx, db`reports, db`nextReport
    ensures ctx.Valid() && db.Valid()
    ensures ctx.step == Idle && ctx.data == map[]
    ensures text == CancelLabel ==> db.reports == old(db.reports)
    ensures text != CancelLabel ==>
              db.reports == old(db.reports) + [Report(old(db.nextReport), uid, Format(today), text)]
  {
    if text == CancelLabel {
      ctx.Clear();
      return;
    }
    db.CreateReport(uid, Format(today), text);
    ctx.Clear();
  }

  const HistoryHeader := "🗂 <b>Ваши последние отчеты:</b>\n\n"

  /** One report in the history text: its date, its text and a rule. */
  function Entry(r: Report): string
  {
    "📅 <b>" + r.reportDate + "</b>\n" + r.text + "\n━━━━━━━━━━━━━━━━\n"
  }

  /** The entries of the reports, in the order given. */
  function Entries(rs: seq<Report>): string
  {
    if |rs| == 0 then "" else Entries(rs[..|rs| - 1]) + Entry(rs[|rs| - 1])
  }

  const Limit: nat := 4000
  const TooLong := "\n... (слишком много данных)"

  /** The cut the history text gets when it is longer than the limit. */
  function Truncate(s: string): string
  {
    if |s| > Limit then s[..Limit] + TooLong else s
  }

  /**
   * A text within the limit is sent as it is; a longer one keeps its first
   * 4000 characters and ends with the fixed note, so no history is longer
   * than the limit and the note.
   */
  lemma TruncateShape(s: string)
    ensures |Truncate(s)| <= Limit + |TooLong|
    ensures |s| <= Limit ==> Truncate(s) == s
    ensures |s| > Limit ==>
              (|Truncate(s)| == Limit + |TooLong| && Truncate(s)[..Limit] == s[..Limit] && Truncate(s)[Limit..] == TooLong)
  {
  }

  /** The reply to "🗂 Мои отчеты". */
  datatype HistoryReply = Silent | NoReports | Listing(text: string)

  /**
   * `report_history`: nothing for anyone but the smm role; a notice when
   * the sender has no reports; otherwise the header and one entry per
   * report, newest first, cut at the limit.
   */
  method ReportHistory(db: Database, uid: int) returns (reply: HistoryReply)
    requires db.Valid() && Registered(db.users, uid)
    ensures !IsSmm(db.users, uid) ==> reply == Silent
    ensures IsSmm(db.users, uid) && |ReportsOf(db.reports, uid)| == 0 ==> reply == NoReports
    ensures IsSmm(db.users, uid) && |ReportsOf(db.reports, uid)| > 0 ==>
              reply == Listing(Truncate(HistoryHeader + Entries(ReportsOf(db.reports, uid))))
    ensures IsSmm(db.users, uid) ==>
              (reply == NoReports <==> forall i :: 0 <= i < |db.reports| ==> db.reports[i].userId != uid)
  {
    var user := FindUser(db.users, uid).value;
    if user.role != "smm" {
      return Silent;
    }
    var rs := ReportsOf(db.reports, uid);
    if |rs| == 0 {
      assert |ReportsBy(db.reports, uid)| == 0;
      return NoReports;
    }
    var text := HistoryText(rs);
    reply := Listing(Truncate(text));
  }

  /** The history's loop: the header, then one entry per report. */
  method HistoryText(rs: seq<Report>) returns (text: string)
    ensures text == HistoryHeader + Entries(rs)
  {
    text := HistoryHeader;
    var i := 0;
    while i < |rs|
      invariant 0 <= i <= |rs|
      invariant text == HistoryHeader + Entries(rs[..i])
    {
      assert rs[..i + 1][..i] == rs[..i];
      text := text + Entry(rs[i]);
      i := i + 1;
    }
    assert rs[..i] == rs;
  }

  /** The entries of the first reports begin the entries of all of them. */
  lemma {:induction false} EntriesPrefix(rs: seq<Report>, k: nat)
    requires k <= |rs|
    ensures |Entries(rs[..k])| <= |Entries(rs)| && Entries(rs)[..|Entries(rs[..k])|] == Entries(rs[..k])
    decreases |rs|
  {
    if k < |rs| {
      var init := rs[..|rs| - 1];
      assert init[..k] == rs[..k];
      EntriesPrefix(init, k);
      assert Entries(rs) == Entries(init) + Entry(rs[|rs| - 1]);
    } else {
      assert rs[..k] == rs;
    }
  }

  /**
   * The cut never damages the newest reports that fit: when the header and
   * the first `k` entries are within the limit, the history begins with
   * them, whole.
   */
  lemma TruncateKeepsNewest(rs: seq<Report>, k: nat)
    requires k <= |rs| && |HistoryHeader + Entries(rs[..k])| <= Limit
    ensures var t := Truncate(HistoryHeader + Entries(rs));
            var p := HistoryHeader + Entries(rs[..k]);
            |p| <= |t| && t[..|p|] == p
  {
    EntriesPrefix(rs, k);
    var full := HistoryHeader + Entries(rs);
    var p := HistoryHeader + Entries(rs[..k]);
    assert full[..|p|] == p;
    if |full| > Limit {
      assert Truncate(full)[..|p|] == full[..Limit][..|p|];
    }
  }
}
