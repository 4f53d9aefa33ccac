/**
 * The per-user conversation state of the modular bot: the current step of
 * a form (the state groups of bot/states.py) and the answers collected so
 * far (aiogram's FSM data). `update_data` merges keys into the data,
 * `set_state` moves to a step without touching the data, and `clear`
 * forgets both. bot.py uses the same groups without CreateArtist.
 */
module Forms {
  import opened Text

  datatype Step =
    | Idle
    | AddUserTgId | AddUserName | AddUserRole
    | CreateArtistName | CreateArtistManager | CreateArtistDate
    | CreateReleaseArtist | CreateReleaseTitle | CreateReleaseType | CreateReleaseHasCover | CreateReleaseDate
    | CreateTaskTitle | CreateTaskDesc | CreateTaskAssignee | CreateTaskDeadline | CreateTaskReqFile
    | FinishTaskFile | FinishTaskComment
    | SmmReportText

  /** The values the handlers store: texts, ids and the cover answer. */
  datatype Val = VStr(s: string) | VInt(i: int) | VBool(b: bool)

  type Data = map<string, Val>

  predicate IsStr(d: Data, k: string) { k in d && d[k].VStr? }
  predicate IsInt(d: Data, k: string) { k in d && d[k].VInt? }
  predicate IsBool(d: Data, k: string) { k in d && d[k].VBool? }

  /**
   * The kind every handler stores under each key. `uid` holds the text of
   * the ID step, which only digit strings pass.
   */
  predicate KindOk(k: string, v: Val)
  {
    if k == "uid" then v.VStr? && IsDigits(v.s)
    else if k == "name" || k == "artist" || k == "title" || k == "type" || k == "desc"
         || k == "deadline" || k == "f_val" then v.VStr?
    else if k == "assignee" || k == "tid" || k == "creator" || k == "manager" then v.VInt?
    else if k == "need_cover" then v.VBool?
    else true
  }

  predicate WellKinded(d: Data)
  {
    forall k :: k in d ==> KindOk(k, d[k])
  }

  /**
   * The answers the earlier steps of a form have stored by the time it is
   * at `step`: each step's handler reads only these, and every way into a
   * step (the step before it, or a menu button for the first step of a
   * form, or the finish button) stores them first.
   */
  predicate Ready(step: Step, d: Data)
  {
    match step
    case AddUserName => IsStr(d, "uid")
    case AddUserRole => IsStr(d, "uid") && IsStr(d, "name")
    case CreateArtistManager => IsStr(d, "name")
    case CreateArtistDate => IsStr(d, "name") && IsInt(d, "manager")
    case CreateReleaseTitle => IsStr(d, "artist")
    case CreateReleaseType => IsStr(d, "artist") && IsStr(d, "title")
    case CreateReleaseHasCover => IsStr(d, "artist") && IsStr(d, "title") && IsStr(d, "type")
    case CreateReleaseDate =>
      IsStr(d, "artist") && IsStr(d, "title") && IsStr(d, "type") && IsBool(d, "need_cover")
    case CreateTaskDesc => IsStr(d, "title")
    case CreateTaskAssignee => IsStr(d, "title") && IsStr(d, "desc")
    case CreateTaskDeadline => IsStr(d, "title") && IsStr(d, "desc") && IsInt(d, "assignee")
    case CreateTaskReqFile =>
      IsStr(d, "title") && IsStr(d, "desc") && IsInt(d, "assignee") && IsStr(d, "deadline")
    case FinishTaskFile => IsInt(d, "tid") && IsInt(d, "creator") && IsStr(d, "title")
    case FinishTaskComment => IsInt(d, "tid") && IsInt(d, "creator") && IsStr(d, "title")
    case _ => true
  }

  /** A well-kinded update keeps the other keys as they were. */
  lemma UpdateKeepsKinds(d: Data, k: string, v: Val)
    requires WellKinded(d) && KindOk(k, v)
    ensures WellKinded(d[k := v])
    ensures forall j :: j in d && j != k ==> j in d[k := v] && d[k := v][j] == d[j]
  {
  }

  /** aiogram's `FSMContext` for one chat. */
  class FsmContext {
    var step: Step
    var data: Data

    predicate Valid()
      reads this
    {
      WellKinded(data) && Ready(step, data)
    }

    /** A chat no form has touched yet. */
    constructor ()
      ensures step == Idle && data == map[] && Valid()
    {
      step := Idle;
      data := map[];
    }

    /** `state.set_state(s)`. */
    method SetState(s: Step)
      modifies this`step
      ensures step == s
    {
      step := s;
    }

    /** `state.update_data(k=v)`. */
    method UpdateData(k: string, v: Val)
      modifies this`data
      ensures data == old(data)[k := v]
    {
      data := data[k := v];
    }

    /** `state.clear()`. */
    method Clear()
      modifies this
      ensures step == Idle && data == map[]
      ensures Valid()
    {
      step := Idle;
      data := map[];
    }
  }
}
