/**
 * bot/middlewares/auth.py: the outer middlewares that stand before every
 * message and callback handler. Each looks the sender up in `users` and
 * either hands the event on or answers "access denied"; neither writes.
 * bot.py registers the same two decisions as `auth_middleware` and
 * `auth_middleware_callbacks`.
 */
module Auth {
  import opened Wrappers
  import opened Store

  datatype Verdict = Pass | Deny

  /** What the middleware sees of a message: its text and its sender. */
  datatype Event = Event(text: Option<string>, from: Option<int>)

  /** `AuthMiddleware`: "/start" always passes, so does an event with no sender; otherwise the sender must have a row. */
  function MessageVerdict(users: seq<User>, e: Event): Verdict
  {
    if e.text == Some("/start") then Pass
    else if e.from.Some? && !Registered(users, e.from.value) then Deny
    else Pass
  }

  /** `AuthCallbackMiddleware`: the same lookup with no "/start" exemption. */
  function CallbackVerdict(users: seq<User>, from: Option<int>): Verdict
  {
    if from.Some? && !Registered(users, from.value) then Deny else Pass
  }

  /** A message is denied exactly when it is not "/start", has a sender, and the sender has no row. */
  lemma MessageDecision(users: seq<User>, e: Event)
    ensures e.text == Some("/start") ==> MessageVerdict(users, e) == Pass
    ensures e.from.None? ==> MessageVerdict(users, e) == Pass
    ensures MessageVerdict(users, e) == Deny <==>
              e.text != Some("/start") && e.from.Some? && FindUser(users, e.from.value).None?
  {
  }

  /** A callback is denied exactly when its sender is known to Telegram but has no row. */
  lemma CallbackDecision(users: seq<User>, from: Option<int>)
    ensures CallbackVerdict(users, from) == Deny <==> from.Some? && FindUser(users, from.value).None?
  {
  }

  /**
   * The handlers behind the middleware may look their sender up and read
   * its role: every message other than "/start" and every callback that
   * passes comes from a registered user.
   */
  lemma PassedSenderRegistered(users: seq<User>, e: Event, uid: int)
    requires e.from == Some(uid)
    ensures MessageVerdict(users, e) == Pass && e.text != Some("/start") ==> Registered(users, uid)
    ensures CallbackVerdict(users, Some(uid)) == Pass ==> Registered(users, uid)
  {
  }

  /** Only "/start" lets an unknown user through, and on callbacks nothing does. */
  lemma StartIsTheOnlyExemption(users: seq<User>, uid: int, text: string)
    requires !Registered(users, uid)
    ensures MessageVerdict(users, Event(Some(text), Some(uid))) == Pass <==> text == "/start"
    ensures CallbackVerdict(users, Some(uid)) == Deny
  {
  }
}
