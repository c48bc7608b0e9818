/**
 * The outbound calls of the service as values: the three Telegram Bot API
 * calls of `TelegramBot` in helpers.py and the fire-and-forget
 * `Model().inference.spawn` of app.py. The HTTP requests themselves are not
 * part of this model; an effect log records, in order, what was sent.
 */
module Effects {
  import opened Ledger
  import opened Messages

  /** The PNG bytes the image pipeline produced. */
  type Image = seq<bv8>

  datatype Effect =
    | SendMessage(chat: UserId, text: Text)     // sendMessage
    | SendPhoto(chat: UserId, photo: Image)     // sendPhoto
    | SendPhotoUploadAction(chat: UserId)       // sendChatAction with action upload_photo
    | Spawn(user: UserId, prompt: string)       // a detached inference job

  /**
   * The effects emitted so far, oldest first; `sentAgainst` records, for each
   * entry, the table as it stood when that call was made.
   */
  class EffectLog {
    var entries: seq<Effect>
    ghost var sentAgainst: seq<Table>

    constructor ()
      ensures entries == [] && sentAgainst == []
    {
      entries, sentAgainst := [], [];
    }

    method Emit(e: Effect, ghost current: Table)
      modifies this
      ensures entries == old(entries) + [e]
      ensures sentAgainst == old(sentAgainst) + [current]
    {
      entries, sentAgainst := entries + [e], sentAgainst + [current];
    }
  }
}
