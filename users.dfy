/**
 * bot/handlers/users.py: the founder's user management. Listing, adding
 * and deleting are offered to the founder only; the AddUser form asks for
 * the Telegram ID, the name and the role, then upserts the row and
 * welcomes the new user.
 */
module Users {
  import opened Wrappers
  import opened Text
  import opened Ordering
  import opened Store
  import opened Forms
  import opened Config
  import opened Notices
  import opened Tokens

  predicate IsFounder(users: seq<User>, uid: int)
    requires Registered(users, uid)
  {
    FindUser(users, uid).value.role == "founder"
  }

  /** `list_users`: the whole team ordered by role, for the founder; silence for anyone else. */
  method ListUsers(db: Database, uid: int) returns (shown: Option<seq<User>>)
    requires Registered(db.users, uid)
    ensures shown.Some? <==> IsFounder(db.users, uid)
    ensures shown.Some? ==> multiset(shown.value) == multiset(db.users) && SortedBy(shown.value, RoleKey, false)
  {
    var user := FindUser(db.users, uid).value;
    if user.role != "founder" {
      return None;
    }
    shown := Some(AllUsers(db.users));
  }

  /** `add_user_step1`: the founder enters the ID step; anyone else is ignored. */
  method AddUserStart(ctx: FsmContext, db: Database, uid: int)
    requires ctx.Valid() && Registered(db.users, uid)
    modifies ctx`step
    ensures ctx.Valid()
    ensures IsFounder(db.users, uid) ==> ctx.step == AddUserTgId
    ensures !IsFounder(db.users, uid) ==> ctx.step == old(ctx.step)
  {
    var user := FindUser(db.users, uid).value;
    if user.role != "founder" {
      return;
    }
    ctx.SetState(AddUserTgId);
  }

  /** `add_user_step2`: a digit string is kept as the ID and the form asks for the name; anything else re-prompts. */
  method AddUserTgIdStep(ctx: FsmContext, text: string)
    requires ctx.Valid() && ctx.step == AddUserTgId
    modifies ctx
    ensures ctx.Valid()
    ensures IsDigits(text) ==> ctx.step == AddUserName && ctx.data == old(ctx.data)["uid" := VStr(text)]
    ensures !IsDigits(text) ==> ctx.step == AddUserTgId && ctx.data == old(ctx.data)
  {
    if !IsDigits(text) {
      return;
    }
    ctx.UpdateData("uid", VStr(text));
    ctx.SetState(AddUserName);
  }

  /** `add_user_step3`: any text is the name; the form asks for the role. */
  method AddUserNameStep(ctx: FsmContext, text: string)
    requires ctx.Valid() && ctx.step == AddUserName
    modifies ctx
    ensures ctx.Valid()
    ensures ctx.step == AddUserRole && ctx.data == old(ctx.data)["name" := VStr(text)]
  {
    ctx.UpdateData("name", VStr(text));
    ctx.SetState(AddUserRole);
  }

  /** The role step accepts exactly the four role labels. */
  lemma RoleLabelAccepted(text: string)
    ensures text in RolesMap() <==>
              text in {"👑 Основатель", "🎧 A&R Менеджер", "🎨 Дизайнер", "📱 SMM Специалист"}
  {
    RoleItemsDistinct();
    MapOfExact(RoleItems);
    var labels := ["👑 Основатель", "🎧 A&R Менеджер", "🎨 Дизайнер", "📱 SMM Специалист"];
    assert forall i :: 0 <= i < 4 ==> RoleItems[i].0 == labels[i];
    assert forall l :: l in labels <==> l in {"👑 Основатель", "🎧 A&R Менеджер", "🎨 Дизайнер", "📱 SMM Специалист"};
    if text in RolesMap() {
      var i :| 0 <= i < |RoleItems| && RoleItems[i].0 == text;
      assert text == labels[i];
    }
    if text in labels {
      var i :| 0 <= i < 4 && labels[i] == text;
      assert RoleItems[i].0 in RolesMap();
    }
  }

  /**
   * `add_user_finish`: a role label commits the form: the row for the
   * entered ID gets the entered name, the role's code and no username,
   * the new user is welcomed and the form is cleared; any other text
   * re-prompts with the form as it was.
   */
  method AddUserFinish(ctx: FsmContext, db: Database, text: string) returns (notes: seq<Note>)
    requires ctx.Valid() && ctx.step == AddUserRole && db.Valid()
    modifies ctx, db`users
    ensures ctx.Valid() && db.Valid()
    ensures text !in RolesMap() ==>
              ctx.step == AddUserRole && ctx.data == old(ctx.data) && db.users == old(db.users) && notes == []
    ensures text in RolesMap() ==>
              var id := DigitsValue(old(ctx.data)["uid"].s) as int;
              var u := User(id, old(ctx.data)["name"].s, None, RolesMap()[text]);
              db.users == Upsert(old(db.users), u) && FindUser(db.users, id) == Some(u)
              && notes == [Note(id, Welcome)] && ctx.step == Idle && ctx.data == map[]
  {
    if text !in RolesMap() {
      return [];
    }
    var code := RolesMap()[text];
    var id := DigitsValue(ctx.data["uid"].s) as int;
    var name := ctx.data["name"].s;
    db.AddUser(id, name, code, None);
    notes := [Note(id, Welcome)];
    ctx.Clear();
  }

  predicate NotFounder(u: User) { u.role != "founder" }

  /**
   * `delete_user_start`: for the founder, one delete button per user whose
   * role is not founder, in the role order of `get_all_users`; silence for
   * anyone else.
   */
  method DeleteUserStart(db: Database, uid: int) returns (candidates: Option<seq<User>>)
    requires Registered(db.users, uid)
    ensures candidates.Some? <==> IsFounder(db.users, uid)
    ensures candidates.Some? ==>
              multiset(candidates.value) == multiset(Filter(db.users, NotFounder))
              && SortedBy(candidates.value, RoleKey, false)
              && forall i :: 0 <= i < |candidates.value| ==> candidates.value[i].role != "founder"
  {
    var user := FindUser(db.users, uid).value;
    if user.role != "founder" {
      return None;
    }
    var all := AllUsers(db.users);
    FilterSameMultiset(all, db.users, NotFounder);
    FilterSorted(all, NotFounder, RoleKey, false);
    candidates := Some(Filter(all, NotFounder));
  }

  /** The data of the delete button for `id`, `rm_usr_<id>`. */
  function RmUsrToken(id: int): string
  {
    Token("rm_usr", id)
  }

  /** Reading the third piece of `rm_usr_<id>` gives back `id`. */
  lemma RmUsrRoundTrip(id: int)
    ensures StartsWith(RmUsrToken(id), "rm_usr_")
    ensures IntField(RmUsrToken(id), 2) == Some(id)
  {
    var head := "rm" + "_" + "usr";
    assert head == "rm_usr";
    SplitTwoWords("rm", "usr");
    TokenRoundTrip(head, id);
    assert |Split(head, '_')| == 2;
    assert RmUsrToken(id) == head + "_" + IntToString(id);
  }

  /**
   * `delete_user_confirm`: the row of the id read from the button is
   * deleted; data whose third piece is not an integer stops the handler
   * before it writes.
   */
  method DeleteUserConfirm(db: Database, data: string) returns (deleted: Option<int>)
    requires db.Valid()
    modifies db`users
    ensures db.Valid()
    ensures deleted == IntField(data, 2)
    ensures deleted.Some? ==> db.users == RemoveUser(old(db.users), deleted.value) && FindUser(db.users, deleted.value).None?
    ensures deleted.None? ==> db.users == old(db.users)
  {
    deleted := IntField(data, 2);
    if deleted.Some? {
      db.DeleteUser(deleted.value);
    }
  }
}
