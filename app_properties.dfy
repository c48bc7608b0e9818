/**
 * What one handler call does in each branch, and what a sequence of handler
 * calls and worker completions does to a balance.
 */
module AppProperties {
  import opened Wrappers
  import opened Ledger
  import opened Effects
  import opened Messages
  import opened App

  // ---------------------------------------------------------------------------
  // One handler call.

  /**
   * A payment overwrites the balance with 50 and always sends one confirmation,
   * even when no row matched; the confirmation goes out after the write.
   */
  lemma PaymentBranch(t: Table, msg: Payload, link: string, r: UserId)
    requires ClientReferenceId(msg) == Some(r)
    ensures Handle(t, msg, link).outcome == Returned
    ensures r in t ==> Handle(t, msg, link).table == t[r := PaymentCredits]
    ensures r !in t ==> Handle(t, msg, link).table == t
    ensures Handle(t, msg, link).effects == [SendMessage(r, Credited)]
    ensures Handle(t, msg, link).sentAgainst == [Handle(t, msg, link).table]
  {
  }

  /** With a client reference present, the message part of the payload is never looked at. */
  lemma PaymentIgnoresMessage(t: Table, msg: Payload, other: Option<Message>, link: string)
    requires ClientReferenceId(msg).Some?
    ensures Handle(t, msg.(message := other), link) == Handle(t, msg, link)
  {
  }

  /** Without a client reference and with a message key missing, the handler raises and changes nothing. */
  lemma MalformedBranch(t: Table, msg: Payload, link: string)
    requires ClientReferenceId(msg).None?
    requires SenderId(msg).None? || MessageText(msg).None? || FirstName(msg).None?
    ensures Handle(t, msg, link) == Step(RaisedKeyError, t, [], [])
  {
  }

  /**
   * `/start` greets and inserts the user, the greeting going out while the
   * table is still the old one (so a new user has no row yet); it neither
   * decrements nor spawns.
   */
  lemma StartBranch(t: Table, msg: Payload, link: string, u: UserId, firstName: string)
    requires ClientReferenceId(msg).None?
    requires SenderId(msg) == Some(u) && FirstName(msg) == Some(firstName)
    requires MessageText(msg) == Some(StartCommand)
    ensures Handle(t, msg, link).outcome == Returned
    ensures Handle(t, msg, link).table == CreateUser(t, u)
    ensures u in t ==> Handle(t, msg, link).table == t
    ensures Handle(t, msg, link).effects == [SendMessage(u, Greeting(DisplayName(firstName)))]
    ensures Handle(t, msg, link).sentAgainst == [t]
    ensures u !in t ==> u !in Handle(t, msg, link).sentAgainst[0] && u in Handle(t, msg, link).table
  {
  }

  /** A generation request is a message with any other text; `Classify` gives its user, name and prompt. */
  predicate IsGenerationFrom(msg: Payload, u: UserId)
  {
    Classify(msg).Generate? && Classify(msg).user == u
  }

  /**
   * A balance of at most zero is refused with one message that carries the
   * purchase link for this user; the table is left as it was.
   */
  lemma InsufficientCredits(t: Table, msg: Payload, link: string, u: UserId)
    requires IsGenerationFrom(msg, u)
    requires GetCredits(t, u).credits <= 0
    ensures u in t && t[u] <= 0
    ensures Handle(t, msg, link) ==
      Step(Returned, t, [SendMessage(u, NoCredits(Classify(msg).name, link, u))], [t])
  {
  }

  /**
   * A positive balance admits the request: confirmation, upload indicator and
   * exactly one spawn of (user, prompt), in that order, all after the row is
   * read (and inserted when missing); no credit is taken here.
   */
  lemma AdmittedRequest(t: Table, msg: Payload, link: string, u: UserId)
    requires IsGenerationFrom(msg, u)
    requires GetCredits(t, u).credits > 0
    ensures Handle(t, msg, link).outcome == Returned
    ensures Handle(t, msg, link).table == CreateUser(t, u)
    ensures u in t ==> Handle(t, msg, link).table == t
    ensures Handle(t, msg, link).effects ==
      [ SendMessage(u, Generating(Classify(msg).name, Classify(msg).prompt)),
        SendPhotoUploadAction(u),
        Spawn(u, Classify(msg).prompt) ]
    ensures Handle(t, msg, link).sentAgainst == [CreateUser(t, u), CreateUser(t, u), CreateUser(t, u)]
  {
  }

  /** The number of spawns in an effect sequence. */
  function SpawnCount(effects: seq<Effect>): nat
  {
    if effects == [] then 0
    else (if effects[0].Spawn? then 1 else 0) + SpawnCount(effects[1..])
  }

  lemma {:induction false} SpawnCountAppend(a: seq<Effect>, b: seq<Effect>)
    ensures SpawnCount(a + b) == SpawnCount(a) + SpawnCount(b)
    decreases |a|
  {
    if a == [] {
      assert a + b == b;
    } else {
      assert (a + b)[0] == a[0];
      assert (a + b)[1..] == a[1..] + b;
      SpawnCountAppend(a[1..], b);
    }
  }

  /** A generation request spawns a job exactly when `get_credits` returned a positive value. */
  lemma SpawnIffPositive(t: Table, msg: Payload, link: string, u: UserId)
    requires IsGenerationFrom(msg, u)
    ensures SpawnCount(Handle(t, msg, link).effects) == (if GetCredits(t, u).credits > 0 then 1 else 0)
  {
    var e := Handle(t, msg, link).effects;
    if GetCredits(t, u).credits > 0 {
      AdmittedRequest(t, msg, link, u);
      assert e[1..][1..][1..] == [];
      assert SpawnCount(e[1..][1..]) == 1;
      assert SpawnCount(e[1..]) == 1;
    } else {
      InsufficientCredits(t, msg, link, u);
      assert e[1..] == [];
    }
  }

  /** A user the table has never seen is admitted, since `get_credits` inserts and returns 10. */
  lemma NewUserAdmitted(t: Table, msg: Payload, link: string, u: UserId)
    requires IsGenerationFrom(msg, u) && u !in t
    ensures Handle(t, msg, link).table == t[u := DefaultCredits]
    ensures SpawnCount(Handle(t, msg, link).effects) == 1
  {
    SpawnIffPositive(t, msg, link, u);
  }

  /** An empty first name is shown as "there" (a missing one raises, see `MalformedBranch`). */
  lemma FallbackGreeting(t: Table, msg: Payload, link: string, u: UserId)
    requires ClientReferenceId(msg).None?
    requires SenderId(msg) == Some(u) && FirstName(msg) == Some("")
    requires MessageText(msg) == Some(StartCommand)
    ensures Handle(t, msg, link).effects == [SendMessage(u, Greeting("there"))]
  {
  }

  /** The user a handled event is about, if any. */
  function Subject(e: Event): Option<UserId>
  {
    match e
    case Payment(r) => Some(r)
    case Start(u, _) => Some(u)
    case Generate(u, _, _) => Some(u)
    case Malformed => None
  }

  /** One handler call changes at most the row of the user its event is about. */
  lemma HandleTouchesOneRow(t: Table, msg: Payload, link: string)
    ensures Subject(Classify(msg)).None? ==> Handle(t, msg, link).table == t
    ensures Subject(Classify(msg)).Some? ==>
      OnlyRowChanged(t, Handle(t, msg, link).table, Subject(Classify(msg)).value)
  {
  }

  // ---------------------------------------------------------------------------
  // The worker and runs of several steps.

  /**
   * A completion sends the photo and takes exactly one credit, with no lower
   * bound; the photo goes out while the balance is still the old one.
   */
  lemma CompletionDecrements(t: Table, u: UserId, image: Image)
    ensures Complete(t, u, image).effects == [SendPhoto(u, image)]
    ensures u in t ==> u in Complete(t, u, image).table && Complete(t, u, image).table[u] == t[u] - 1
    ensures u !in t ==> Complete(t, u, image).table == t
    ensures Complete(t, u, image).sentAgainst == [t]
    ensures u in t ==> Complete(t, u, image).sentAgainst[0][u] == Complete(t, u, image).table[u] + 1
  {
  }

  /** Inbound webhooks and worker completions, applied one after another. */
  datatype Action = Webhook(msg: Payload) | Completion(user: UserId, image: Image)

  function Apply(t: Table, a: Action, link: string): Step
  {
    match a
    case Webhook(msg) => Handle(t, msg, link)
    case Completion(u, image) => Complete(t, u, image)
  }

  /** The table after a run and all the effects of its steps, in order. */
  datatype Trace = Trace(table: Table, effects: seq<Effect>)

  function Run(t: Table, actions: seq<Action>, link: string): Trace
    decreases |actions|
  {
    if actions == [] then Trace(t, [])
    else
      var first := Apply(t, actions[0], link);
      var rest := Run(first.table, actions[1..], link);
      Trace(rest.table, first.effects + rest.effects)
  }

  predicate AllGenerationFrom(actions: seq<Action>, u: UserId)
  {
    forall i :: 0 <= i < |actions| ==> actions[i].Webhook? && IsGenerationFrom(actions[i].msg, u)
  }

  predicate AllCompletionsFor(actions: seq<Action>, u: UserId)
  {
    forall i :: 0 <= i < |actions| ==> actions[i].Completion? && actions[i].user == u
  }

  /**
   * Admission only reads the balance: from a positive balance, every one of
   * any number of generation requests is admitted and the table is unchanged.
   */
  lemma {:induction false} AdmissionsLeaveBalance(t: Table, u: UserId, actions: seq<Action>, link: string)
    requires u in t && t[u] > 0
    requires AllGenerationFrom(actions, u)
    ensures Run(t, actions, link).table == t
    ensures SpawnCount(Run(t, actions, link).effects) == |actions|
    decreases |actions|
  {
    if actions != [] {
      AdmittedRequest(t, actions[0].msg, link, u);
      assert AllGenerationFrom(actions[1..], u) by {
        forall i | 0 <= i < |actions[1..]|
          ensures actions[1..][i].Webhook? && IsGenerationFrom(actions[1..][i].msg, u)
        {
          assert actions[1..][i] == actions[i + 1];
        }
      }
      AdmissionsLeaveBalance(t, u, actions[1..], link);
      SpawnIffPositive(t, actions[0].msg, link, u);
      SpawnCountAppend(Apply(t, actions[0], link).effects, Run(t, actions[1..], link).effects);
    }
  }

  /** Each completion takes one credit from its user and touches no other row. */
  lemma {:induction false} CompletionsLowerBalance(t: Table, u: UserId, actions: seq<Action>, link: string)
    requires u in t
    requires AllCompletionsFor(actions, u)
    ensures u in Run(t, actions, link).table
    ensures Run(t, actions, link).table[u] == t[u] - |actions|
    ensures OnlyRowChanged(t, Run(t, actions, link).table, u)
    decreases |actions|
  {
    if actions != [] {
      var t1 := Apply(t, actions[0], link).table;
      assert AllCompletionsFor(actions[1..], u) by {
        forall i | 0 <= i < |actions[1..]|
          ensures actions[1..][i].Completion? && actions[1..][i].user == u
        {
          assert actions[1..][i] == actions[i + 1];
        }
      }
      CompletionsLowerBalance(t1, u, actions[1..], link);
    }
  }

  /**
   * The check-then-act gap: requests admitted at balance b and completed later
   * leave b minus the number of completions, below zero once more requests
   * were admitted than the balance covered.
   */
  lemma {:induction false} OverAdmission(t: Table, u: UserId, requests: seq<Action>, completions: seq<Action>, link: string)
    requires u in t && t[u] > 0
    requires AllGenerationFrom(requests, u)
    requires AllCompletionsFor(completions, u)
    ensures SpawnCount(Run(t, requests + completions, link).effects) == |requests|
    ensures u in Run(t, requests + completions, link).table
    ensures Run(t, requests + completions, link).table[u] == t[u] - |completions|
    decreases |requests|
  {
    var all := requests + completions;
    if requests == [] {
      assert all == completions;
      CompletionsLowerBalance(t, u, completions, link);
      NoSpawnsInCompletions(t, u, completions, link);
    } else {
      assert all[0] == requests[0];
      assert all[1..] == requests[1..] + completions;
      var first := Apply(t, all[0], link);
      AdmittedRequest(t, requests[0].msg, link, u);
      SpawnIffPositive(t, requests[0].msg, link, u);
      assert AllGenerationFrom(requests[1..], u) by {
        forall i | 0 <= i < |requests[1..]|
          ensures requests[1..][i].Webhook? && IsGenerationFrom(requests[1..][i].msg, u)
        {
          assert requests[1..][i] == requests[i + 1];
        }
      }
      OverAdmission(t, u, requests[1..], completions, link);
      SpawnCountAppend(first.effects, Run(t, all[1..], link).effects);
    }
  }

  lemma {:induction false} NoSpawnsInCompletions(t: Table, u: UserId, actions: seq<Action>, link: string)
    requires AllCompletionsFor(actions, u)
    ensures SpawnCount(Run(t, actions, link).effects) == 0
    decreases |actions|
  {
    if actions != [] {
      assert AllCompletionsFor(actions[1..], u) by {
        forall i | 0 <= i < |actions[1..]|
          ensures actions[1..][i].Completion? && actions[1..][i].user == u
        {
          assert actions[1..][i] == actions[i + 1];
        }
      }
      var first := Apply(t, actions[0], link);
      NoSpawnsInCompletions(first.table, u, actions[1..], link);
      SpawnCountAppend(first.effects, Run(first.table, actions[1..], link).effects);
    }
  }

  /** Two requests both admitted at balance 1, both completed: the balance ends at -1. */
  lemma TwoAdmittedAtOne(t: Table, u: UserId, m1: Payload, m2: Payload, i1: Image, i2: Image, link: string)
    requires u in t && t[u] == 1
    requires IsGenerationFrom(m1, u) && IsGenerationFrom(m2, u)
    ensures var r := Run(t, [Webhook(m1), Webhook(m2), Completion(u, i1), Completion(u, i2)], link);
      SpawnCount(r.effects) == 2 && u in r.table && r.table[u] == -1
  {
    var requests, completions := [Webhook(m1), Webhook(m2)], [Completion(u, i1), Completion(u, i2)];
    assert requests + completions == [Webhook(m1), Webhook(m2), Completion(u, i1), Completion(u, i2)];
    OverAdmission(t, u, requests, completions, link);
  }
}
