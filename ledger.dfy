/**
 * The `users` table behind the `Database` class of helpers.py
 * (`user_id BIGINT PRIMARY KEY, credits INT`) and what each SQL statement
 * that the class issues does to it. A table is a map from user id to credits;
 * a missing key is a missing row.
 */
module Ledger {

  type UserId = int
  type Table = map<UserId, int>

  /** Every user starts with 10 free credits (the literal in the INSERT). */
  const DefaultCredits: int := 10

  /** Every row other than that of `u` is the same in `t` and `r`: present in both or absent from both, with equal credits. */
  ghost predicate OnlyRowChanged(t: Table, r: Table, u: UserId)
  {
    && (forall v :: v != u ==> (v in t <==> v in r))
    && (forall v :: v != u && v in t ==> r[v] == t[v])
  }

  /** `INSERT INTO users (user_id, credits) VALUES (u, 10) ON CONFLICT (user_id) DO NOTHING`. */
  function CreateUser(t: Table, u: UserId): (r: Table)
    ensures u in r
    ensures u in t ==> r == t
    ensures u !in t ==> r[u] == DefaultCredits
    ensures r.Keys == t.Keys + {u}
    ensures OnlyRowChanged(t, r, u)
  {
    if u in t then t else t[u := DefaultCredits]
  }

  /** What `get_credits` returns, and the table it leaves behind. */
  datatype Read = Read(credits: int, table: Table)

  /**
   * `SELECT credits FROM users WHERE user_id = u`; when no row comes back,
   * `create_user(u)` and the literal 10 are returned instead.
   */
  function GetCredits(t: Table, u: UserId): (r: Read)
    ensures r.table == CreateUser(t, u)
    ensures u in r.table && r.credits == r.table[u]
    ensures u in t ==> r.credits == t[u] && r.table == t
    ensures u !in t ==> r.credits == DefaultCredits
  {
    if u in t then Read(t[u], t)
    else Read(DefaultCredits, CreateUser(t, u))
  }

  /** `UPDATE users SET credits = c WHERE user_id = u`: an overwrite that matches no row for an unknown user. */
  function UpdateCredits(t: Table, u: UserId, c: int): (r: Table)
    ensures u in t ==> u in r && r[u] == c
    ensures u !in t ==> r == t
    ensures r.Keys == t.Keys
    ensures OnlyRowChanged(t, r, u)
  {
    if u in t then t[u := c] else t
  }

  /** `UPDATE users SET credits = credits - 1 WHERE user_id = u`: no lower bound, no row for an unknown user. */
  function DecrementCredits(t: Table, u: UserId): (r: Table)
    ensures u in t ==> u in r && r[u] == t[u] - 1
    ensures u !in t ==> r == t
    ensures r.Keys == t.Keys
    ensures OnlyRowChanged(t, r, u)
  {
    if u in t then t[u := t[u] - 1] else t
  }

  /** `ON CONFLICT DO NOTHING` makes a second insert of the same user change nothing. */
  lemma CreateUserIdempotent(t: Table, u: UserId)
    ensures CreateUser(CreateUser(t, u), u) == CreateUser(t, u)
  {
  }

  /** `update_credits` sets the balance to its argument whatever it was before: it does not add. */
  lemma UpdateIsOverwrite(t: Table, u: UserId, c: int)
    requires u in t
    ensures UpdateCredits(t, u, c)[u] == c
    ensures UpdateCredits(UpdateCredits(t, u, c), u, c) == UpdateCredits(t, u, c)
  {
  }

  /** Nothing stops a decrement at zero: an exhausted balance goes negative. */
  lemma DecrementBelowZero(t: Table, u: UserId)
    requires u in t && t[u] <= 0
    ensures DecrementCredits(t, u)[u] < 0
  {
  }
}
