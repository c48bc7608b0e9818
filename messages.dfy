/**
 * The four texts the bot sends (the f-strings of app.py), recorded by
 * template and the values filled into it; `Render` gives the exact string
 * that goes over the wire.
 */
module Messages {
  import opened Wrappers
  import opened Ledger
  import opened Format

  datatype Text =
    | Credited                                             // after a payment
    | Greeting(name: string)                               // reply to /start
    | NoCredits(name: string, link: string, user: UserId)  // refusal with the purchase link
    | Generating(name: string, prompt: string)             // confirmation of an admitted request

  function Render(t: Text): string
  {
    match t
    case Credited => CreditedString()
    case Greeting(name) => GreetingString(name)
    case NoCredits(name, link, u) => PurchasePrefix(name, link) + IntToString(u)
    case Generating(name, prompt) => GeneratingString(name, prompt)
  }

  function CreditedString(): string
  {
    "Your account has been credited with 50 credits. You can now generate images."
  }

  function GreetingString(name: string): string
  {
    "Hi " + name + ", I am a bot that can generate images from text. Please enter a prompt."
  }

  function GeneratingString(name: string, prompt: string): string
  {
    "Sure " + name + ", generating an image for the prompt: " + prompt
  }

  /** The query that carries the user id at the end of the purchase link. */
  const ReferenceQuery: string := "?client_reference_id="

  /** The refusal text up to the user id that ends the purchase link. */
  function PurchasePrefix(name: string, link: string): string
  {
    RefusalHead(name, link) + ReferenceQuery
  }

  /** The refusal text up to the end of the configured link. */
  function RefusalHead(name: string, link: string): string
  {
    "Sorry " + name + ", you do not have enough credits to generate an image. "
    + "Please buy more credits to continue. Purchase 50 credits for $10 here: " + link
  }

  /** `s` ends with `suffix`. */
  predicate EndsWith(s: string, suffix: string)
  {
    |suffix| <= |s| && s[|s| - |suffix|..] == suffix
  }

  lemma EndsWithConcat(a: string, b: string, c: string)
    ensures EndsWith((a + b) + c, b + c)
  {
    assert (a + b) + c == a + (b + c);
    assert (a + (b + c))[|a|..] == b + c;
  }

  /**
   * The refusal text ends in `?client_reference_id=` followed by the rendered
   * user id, and that id text reads back as the user.
   */
  lemma LinkCarriesUserId(name: string, link: string, u: UserId)
    ensures EndsWith(Render(NoCredits(name, link, u)), ReferenceQuery + IntToString(u))
    ensures ParseInt(IntToString(u)) == Some(u)
  {
    var head, id := RefusalHead(name, link), IntToString(u);
    EndsWithConcat(head, ReferenceQuery, id);
    IntToStringRoundTrip(u);
  }
}
