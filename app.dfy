/**
 * The webhook endpoint `web_inference` of app.py and the ledger and effect
 * part of the worker method `Model.inference`.
 *
 * The handler is given as a function `Handle` from the table and one payload
 * to the outcome, the new table and the effects in the order emitted, and as a
 * method `WebInference` that does the same steps against a `Database` and an
 * `EffectLog`. The worker's completion is `Complete` / `Inference`.
 */
module App {
  import opened Wrappers
  import opened Ledger
  import opened Effects
  import opened Messages
  import Helpers

  // ---------------------------------------------------------------------------
  // The inbound JSON body, reduced to the keys the handler looks up; a key that
  // is absent from its dictionary is `None`.

  datatype Payload = Payload(data: Option<StripeData>, message: Option<Message>)
  /** `msg["data"]` of a Stripe event. */
  datatype StripeData = StripeData(obj: Option<StripeObject>)
  /** `msg["data"]["object"]`. */
  datatype StripeObject = StripeObject(clientReferenceId: Option<UserId>)
  /** `msg["message"]` of a Telegram update. */
  datatype Message = Message(sender: Option<Sender>, text: Option<string>)
  /** `msg["message"]["from"]`. */
  datatype Sender = Sender(id: Option<UserId>, firstName: Option<string>)

  /** `msg["data"]["object"]["client_reference_id"]`, `None` when any of the three keys is missing. */
  function ClientReferenceId(msg: Payload): Option<UserId>
  {
    match msg.data
    case None => None
    case Some(d) =>
      match d.obj
      case None => None
      case Some(o) => o.clientReferenceId
  }

  function SenderField(msg: Payload): Option<Sender>
  {
    match msg.message
    case None => None
    case Some(m) => m.sender
  }

  /** `msg["message"]["from"]["id"]`. */
  function SenderId(msg: Payload): Option<UserId>
  {
    match SenderField(msg)
    case None => None
    case Some(f) => f.id
  }

  /** `msg["message"]["from"]["first_name"]`. */
  function FirstName(msg: Payload): Option<string>
  {
    match SenderField(msg)
    case None => None
    case Some(f) => f.firstName
  }

  /** `msg["message"]["text"]`. */
  function MessageText(msg: Payload): Option<string>
  {
    match msg.message
    case None => None
    case Some(m) => m.text
  }

  // ---------------------------------------------------------------------------
  // Constants and the display name.

  /** A payment sets the balance to this value. */
  const PaymentCredits: int := 50
  const StartCommand: string := "/start"
  const FallbackName: string := "there"

  /** `first_name or "there"`: the empty string is the only falsy string. */
  function DisplayName(firstName: string): (name: string)
    ensures name != ""
    ensures firstName != "" ==> name == firstName
    ensures firstName == "" ==> name == FallbackName
  {
    if firstName == "" then FallbackName else firstName
  }

  // ---------------------------------------------------------------------------
  // Classification and the handler.

  /** Which branch of the handler one payload takes. */
  datatype Event =
    | Payment(beneficiary: UserId)
    | Start(user: UserId, name: string)
    | Generate(user: UserId, name: string, prompt: string)
    | Malformed

  /**
   * The payment lookup is tried first; only if it raises `KeyError` are the
   * three message keys read, and a missing one of those raises out of the handler.
   */
  function Classify(msg: Payload): (e: Event)
    ensures e.Payment? <==> ClientReferenceId(msg).Some?
    ensures e.Payment? ==> e.beneficiary == ClientReferenceId(msg).value
    ensures e.Malformed? <==>
      ClientReferenceId(msg).None? && (SenderId(msg).None? || MessageText(msg).None? || FirstName(msg).None?)
    ensures e.Start? || e.Generate? ==>
      && SenderId(msg) == Some(e.user)
      && FirstName(msg).Some? && e.name == DisplayName(FirstName(msg).value)
    ensures e.Start? <==> !e.Payment? && !e.Malformed? && MessageText(msg) == Some(StartCommand)
    ensures e.Generate? ==> MessageText(msg) == Some(e.prompt) && e.prompt != StartCommand
  {
    match ClientReferenceId(msg)
    case Some(r) => Payment(r)
    case None =>
      if SenderId(msg).None? || MessageText(msg).None? || FirstName(msg).None? then Malformed
      else
        var u, prompt, name := SenderId(msg).value, MessageText(msg).value, DisplayName(FirstName(msg).value);
        if prompt == StartCommand then Start(u, name) else Generate(u, name, prompt)
  }

  /** The handler returns normally, or a missing key raises `KeyError` out of it. */
  datatype Outcome = Returned | RaisedKeyError

  /**
   * The result of one step: its outcome, the table after it, the effects it
   * emitted in order, and for each effect the table as it stood when that
   * effect was sent (which places each write before or after each call).
   */
  datatype Step = Step(outcome: Outcome, table: Table, effects: seq<Effect>, sentAgainst: seq<Table>)

  /** `web_inference(msg)` run against the table `t`; `link` is the payment link from the environment. */
  function Handle(t: Table, msg: Payload, link: string): Step
  {
    match Classify(msg)
    case Payment(r) =>
      var updated := UpdateCredits(t, r, PaymentCredits);
      Step(Returned, updated, [SendMessage(r, Credited)], [updated])
    case Start(u, name) =>
      Step(Returned, CreateUser(t, u), [SendMessage(u, Greeting(name))], [t])
    case Generate(u, name, prompt) =>
      var read := GetCredits(t, u);
      if read.credits <= 0 then
        Step(Returned, read.table, [SendMessage(u, NoCredits(name, link, u))], [read.table])
      else
        Step(Returned, read.table,
             [SendMessage(u, Generating(name, prompt)), SendPhotoUploadAction(u), Spawn(u, prompt)],
             [read.table, read.table, read.table])
    case Malformed =>
      Step(RaisedKeyError, t, [], [])
  }

  /** The end of `Model.inference` for `u`: send the generated image, then decrement. */
  function Complete(t: Table, u: UserId, image: Image): Step
  {
    Step(Returned, DecrementCredits(t, u), [SendPhoto(u, image)], [t])
  }

  /** `web_inference`, step by step against the database and the effect log. */
  method WebInference(db: Helpers.Database, log: EffectLog, msg: Payload, link: string) returns (outcome: Outcome)
    modifies db, log
    ensures outcome == Handle(old(db.users), msg, link).outcome
    ensures db.users == Handle(old(db.users), msg, link).table
    ensures log.entries == old(log.entries) + Handle(old(db.users), msg, link).effects
    ensures log.sentAgainst == old(log.sentAgainst) + Handle(old(db.users), msg, link).sentAgainst
  {
    ghost var t, before, seen := db.users, log.entries, log.sentAgainst;
    var reference := ClientReferenceId(msg);
    if reference.Some? {
      var r := reference.value;
      assert Classify(msg) == Payment(r);
      db.UpdateCredits(r, PaymentCredits);
      log.Emit(SendMessage(r, Credited), db.users);
      return Returned;
    }
    // the payment lookup raised KeyError and was passed over
    var id, text, firstName := SenderId(msg), MessageText(msg), FirstName(msg);
    if id.None? || text.None? || firstName.None? {
      assert Classify(msg) == Malformed;
      return RaisedKeyError;
    }
    var u, prompt, name := id.value, text.value, DisplayName(firstName.value);
    if prompt == StartCommand {
      assert Classify(msg) == Start(u, name);
      log.Emit(SendMessage(u, Greeting(name)), db.users);
      db.CreateUser(u);
      return Returned;
    }
    assert Classify(msg) == Generate(u, name, prompt);
    var credits := db.GetCredits(u);
    if credits <= 0 {
      log.Emit(SendMessage(u, NoCredits(name, link, u)), db.users);
      return Returned;
    }
    var confirmation := SendMessage(u, Generating(name, prompt));
    log.Emit(confirmation, db.users);
    log.Emit(SendPhotoUploadAction(u), db.users);
    log.Emit(Spawn(u, prompt), db.users);
    assert log.entries == before + [confirmation, SendPhotoUploadAction(u), Spawn(u, prompt)];
    assert log.sentAgainst == seen + [db.users, db.users, db.users];
    return Returned;
  }

  /**
   * `Model.inference(u, prompt)` after the pipeline has turned `prompt` into `image`:
   * the photo is sent, then the credits are decremented.
   */
  method Inference(db: Helpers.Database, log: EffectLog, u: UserId, prompt: string, image: Image)
    modifies db, log
    ensures db.users == Complete(old(db.users), u, image).table
    ensures log.entries == old(log.entries) + Complete(old(db.users), u, image).effects
    ensures log.sentAgainst == old(log.sentAgainst) + Complete(old(db.users), u, image).sentAgainst
  {
    log.Emit(SendPhoto(u, image), db.users);
    db.DecrementCredits(u);
  }
}
