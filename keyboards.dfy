/**
 * bot/keyboards/builders.py: the reply keyboards of the modular bot, as
 * rows of button labels.
 */
module Keyboards {

  type Rows = seq<seq<string>>

  const CancelLabel := "🔙 Отмена"

  /** `get_cancel_kb()`: one row holding the cancel button. */
  function CancelKb(): (kb: Rows)
    ensures |kb| == 1 && kb[0] == [CancelLabel]
  {
    [[CancelLabel]]
  }

  /** `get_main_kb(role)`: the menu of each role; no rows for any other role. */
  function MainKb(role: string): Rows
  {
    if role == "founder" then
      [["👥 Пользователи", "🎤 Артисты"],
       ["➕ Добавить юзера", "💿 Все релизы"],
       ["💿 Создать релиз", "➕ Создать задачу"],
       ["📋 Активные задачи", "📜 История всех задач"]]
    else if role == "anr" then
      [["💿 Создать релиз", "🎤 Артисты"],
       ["💿 Мои релизы", "➕ Создать задачу"],
       ["📋 Мои задачи", "📜 История"]]
    else if role == "designer" then
      [["📋 Мои задачи", "📜 История"], ["🕰 Просроченные"]]
    else if role == "smm" then
      [["📝 Написать отчет", "📅 Мои отчеты"], ["📋 Мои задачи", "📜 История"]]
    else []
  }

  /** Every label of a keyboard, row by row. */
  function Labels(kb: Rows): seq<string>
  {
    if |kb| == 0 then [] else kb[0] + Labels(kb[1..])
  }

  /** A label is listed exactly when some row holds it. */
  lemma {:induction false} LabelsMembers(kb: Rows, l: string)
    ensures l in Labels(kb) <==> exists i :: 0 <= i < |kb| && l in kb[i]
    decreases |kb|
  {
    if |kb| > 0 {
      LabelsMembers(kb[1..], l);
      assert forall i :: 1 <= i < |kb| ==> kb[i] == kb[1..][i - 1];
      if l in Labels(kb[1..]) {
        var i :| 0 <= i < |kb[1..]| && l in kb[1..][i];
        assert l in kb[i + 1];
      }
    }
  }

  /** An inline button: its label and its callback data. */
  datatype Button = Button(text: string, data: string)

  /** `for x in xs: kb.button(text=text(x), callback_data=data(x))`: one button per item, in order. */
  method Buttons<T>(xs: seq<T>, text: T -> string, data: T -> string) returns (kb: seq<Button>)
    ensures |kb| == |xs|
    ensures forall i :: 0 <= i < |xs| ==> kb[i] == Button(text(xs[i]), data(xs[i]))
  {
    kb := [];
    var i := 0;
    while i < |xs|
      invariant 0 <= i <= |xs| && |kb| == i
      invariant forall k :: 0 <= k < i ==> kb[k] == Button(text(xs[k]), data(xs[k]))
    {
      kb := kb + [Button(text(xs[i]), data(xs[i]))];
      i := i + 1;
    }
  }

  predicate RowsOf(kb: Rows, widths: seq<nat>)
  {
    |kb| == |widths| && forall i :: 0 <= i < |kb| ==> |kb[i]| == widths[i]
  }

  /** Founder: four rows of two; anr: three rows of two; designer: two and one; smm: two rows of two; anyone else: none. */
  lemma MainKbShape(role: string)
    ensures role == "founder" ==> RowsOf(MainKb(role), [2, 2, 2, 2])
    ensures role == "anr" ==> RowsOf(MainKb(role), [2, 2, 2])
    ensures role == "designer" ==> RowsOf(MainKb(role), [2, 1])
    ensures role == "smm" ==> RowsOf(MainKb(role), [2, 2])
    ensures MainKb(role) == [] <==> role !in {"founder", "anr", "designer", "smm"}
  {
  }

  /** The menu texts the routers of bot/handlers answer. */
  const MenuRoutes: set<string> := {
    "👥 Пользователи", "➕ Добавить юзера", "🗑 Удалить юзера",
    "🎤 Артисты",
    "💿 Создать релиз", "💿 Релизы", "💿 Все релизы", "💿 Мои релизы", "🗑 Удалить релиз",
    "➕ Создать задачу", "📋 Активные задачи", "📋 Мои задачи", "📜 История всех задач", "📜 История",
    "📊 Отправить отчет", "🗂 Мои отчеты"
  }

  /** The labels of a role's menu that no handler answers. */
  function Unrouted(role: string): (r: seq<string>)
    ensures forall l :: l in r <==> l in Labels(MainKb(role)) && l !in MenuRoutes
  {
    var ls := Labels(MainKb(role));
    Subtract(ls, MenuRoutes)
  }

  function Subtract(s: seq<string>, out: set<string>): (r: seq<string>)
    ensures forall l :: l in r <==> l in s && l !in out
  {
    if |s| == 0 then []
    else (if s[0] in out then [] else [s[0]]) + Subtract(s[1..], out)
  }

  /** The labels of each role's menu, read row by row. */
  lemma MainLabels(role: string)
    ensures role == "founder" ==> (Labels(MainKb(role)) ==
      ["👥 Пользователи", "🎤 Артисты", "➕ Добавить юзера", "💿 Все релизы",
       "💿 Создать релиз", "➕ Создать задачу", "📋 Активные задачи", "📜 История всех задач"])
    ensures role == "anr" ==> (Labels(MainKb(role)) ==
      ["💿 Создать релиз", "🎤 Артисты", "💿 Мои релизы", "➕ Создать задачу", "📋 Мои задачи", "📜 История"])
    ensures role == "designer" ==> Labels(MainKb(role)) == ["📋 Мои задачи", "📜 История", "🕰 Просроченные"]
    ensures role == "smm" ==> Labels(MainKb(role)) == ["📝 Написать отчет", "📅 Мои отчеты", "📋 Мои задачи", "📜 История"]
    ensures role !in {"founder", "anr", "designer", "smm"} ==> Labels(MainKb(role)) == []
  {
    var kb := MainKb(role);
    if role == "founder" {
      assert Labels(kb[3..]) == kb[3];
      assert Labels(kb[2..]) == kb[2] + kb[3];
      assert Labels(kb[1..]) == kb[1] + kb[2] + kb[3];
    } else if role == "anr" {
      assert Labels(kb[2..]) == kb[2];
      assert Labels(kb[1..]) == kb[1] + kb[2];
    } else if role == "designer" || role == "smm" {
      assert Labels(kb[1..]) == kb[1];
    }
  }

  /** Every button of the founder menu is answered. */
  lemma UnroutedFounder()
    ensures Unrouted("founder") == []
  {
    MainLabels("founder");
    SubtractNone(Labels(MainKb("founder")), MenuRoutes);
  }

  /** Every button of the anr menu is answered. */
  lemma UnroutedAnr()
    ensures Unrouted("anr") == []
  {
    MainLabels("anr");
    SubtractNone(Labels(MainKb("anr")), MenuRoutes);
  }

  /** No handler answers the designer's "🕰 Просроченные". */
  lemma UnroutedDesigner()
    ensures Unrouted("designer") == ["🕰 Просроченные"]
  {
    MainLabels("designer");
    var ls := Labels(MainKb("designer"));
    assert Subtract(ls[2..], MenuRoutes) == ["🕰 Просроченные"];
  }

  /**
   * No handler answers the smm's two report buttons: the report handlers
   * listen for "📊 Отправить отчет" and "🗂 Мои отчеты".
   */
  lemma UnroutedSmm()
    ensures Unrouted("smm") == ["📝 Написать отчет", "📅 Мои отчеты"]
  {
    MainLabels("smm");
    var ls := Labels(MainKb("smm"));
    SmmReportLabelsUnrouted();
    SubtractNone(ls[2..], MenuRoutes);
    SubtractKeeps(ls[1..], MenuRoutes);
    SubtractKeeps(ls, MenuRoutes);
  }

  lemma SmmReportLabelsUnrouted()
    ensures "📝 Написать отчет" !in MenuRoutes && "📅 Мои отчеты" !in MenuRoutes
  {
  }

  lemma SubtractKeeps(s: seq<string>, out: set<string>)
    requires |s| > 0 && s[0] !in out
    ensures Subtract(s, out) == [s[0]] + Subtract(s[1..], out)
  {
  }

  lemma {:induction false} SubtractNone(s: seq<string>, out: set<string>)
    requires forall i :: 0 <= i < |s| ==> s[i] in out
    ensures Subtract(s, out) == []
  {
    if |s| > 0 {
      SubtractNone(s[1..], out);
    }
  }

  /** No menu offers user deletion or release deletion, though both are routed. */
  lemma DeletionNotOnMenu(role: string)
    ensures "🗑 Удалить юзера" !in Labels(MainKb(role)) && "🗑 Удалить юзера" in MenuRoutes
    ensures "🗑 Удалить релиз" !in Labels(MainKb(role)) && "🗑 Удалить релиз" in MenuRoutes
  {
    MainLabels(role);
  }

  /** Only the founder menu offers the user-management buttons. */
  lemma UserManagementFounderOnly(role: string)
    ensures "👥 Пользователи" in Labels(MainKb(role)) <==> role == "founder"
    ensures "➕ Добавить юзера" in Labels(MainKb(role)) <==> role == "founder"
  {
    MainLabels(role);
  }
}
