/**
 * The chat messages the bot sends to users other than the one it is
 * answering. Sending is fire-and-forget (failures are swallowed), so a
 * handler's effect on the outside world is the list of notices it emits.
 */
module Notices {
  /** The file a completed task carries, as told to the task's creator. */
  datatype Attached = NoFile | TelegramFile(kind: string, fileId: string) | DiskLink(url: string)

  datatype Kind =
    | Welcome
    | Assigned(title: string)
    | Annulled(title: string)
    | Refused(title: string)
    | Completed(title: string, file: Attached)
    | Late(title: string)
    | DueSoon(title: string)
    | ContractPrompt(artistId: int)
    | PitchingAlert(title: string)

  datatype Note = Note(to: int, kind: Kind)

  /** One notice of kind `k` to each recipient, in order. */
  function ToAll(ids: seq<int>, k: Kind): (r: seq<Note>)
    ensures |r| == |ids| && forall i :: 0 <= i < |ids| ==> r[i] == Note(ids[i], k)
  {
    seq(|ids|, i requires 0 <= i < |ids| => Note(ids[i], k))
  }
}
