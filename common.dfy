/**
 * bot/handlers/common.py: the cancel button, which every form shares, and
 * `/start`, the one command an unknown user may send.
 */
module Common {
  import opened Wrappers
  import opened Store
  import opened Forms
  import opened Keyboards
  import opened Config

  /** The keyboard the cancel answer carries. */
  datatype CancelMarkup = RoleMenu(rows: Rows) | NoKeyboard

  /** The answer to `/start`. */
  datatype StartReply = NotInSystem | Greeting(name: string, roleName: string, menu: Rows)

  /** `ROLES_DISPLAY.get(role, role)`: a role's label, or the code itself for a code with no label. */
  function RoleName(role: string): (r: string)
    ensures role in RolesDisplay() ==> r == RolesDisplay()[role]
    ensures role !in RolesDisplay() ==> r == role
  {
    if role in RolesDisplay() then RolesDisplay()[role] else role
  }

  /**
   * `cancel_handler`: forget the form, whatever step it was at, and show
   * the sender's menu, or take the keyboard away from a sender without a row.
   */
  method Cancel(ctx: FsmContext, db: Database, uid: int) returns (markup: CancelMarkup)
    modifies ctx
    ensures ctx.step == Idle && ctx.data == map[] && ctx.Valid()
    ensures FindUser(db.users, uid).Some? ==> markup == RoleMenu(MainKb(FindUser(db.users, uid).value.role))
    ensures FindUser(db.users, uid).None? ==> markup == NoKeyboard
  {
    ctx.Clear();
    var user := FindUser(db.users, uid);
    if user.Some? {
      markup := RoleMenu(MainKb(user.value.role));
    } else {
      markup := NoKeyboard;
    }
  }

  /**
   * `cmd_start`: refuse a sender without a row and write nothing; greet a
   * known one, storing the Telegram username when one is given and keeping
   * the stored name and role.
   */
  method Start(db: Database, uid: int, username: Option<string>) returns (reply: StartReply)
    requires db.Valid()
    modifies db`users
    ensures db.Valid()
    ensures FindUser(old(db.users), uid).None? ==> reply == NotInSystem && db.users == old(db.users)
    ensures FindUser(old(db.users), uid).Some? ==>
              var u := FindUser(old(db.users), uid).value;
              reply == Greeting(u.name, RoleName(u.role), MainKb(u.role))
              && (Truthy(username) ==> FindUser(db.users, uid) == Some(u.(username := username)))
              && (!Truthy(username) ==> db.users == old(db.users))
    ensures forall x :: x != uid ==> FindUser(db.users, x) == FindUser(old(db.users), x)
  {
    var user := FindUser(db.users, uid);
    if user.None? {
      reply := NotInSystem;
      return;
    }
    var u := user.value;
    if Truthy(username) {
      db.AddUser(uid, u.name, u.role, username);
      assert u.(username := username) == User(uid, u.name, username, u.role);
    }
    reply := Greeting(u.name, RoleName(u.role), MainKb(u.role));
  }
}
