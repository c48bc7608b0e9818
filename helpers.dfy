/**
 * The `Database` class of helpers.py: one connection to the `users` table.
 * Each method issues one statement (two for `get_credits` on a new user) and
 * the table it leaves is the one the matching Ledger function computes.
 */
module Helpers {
  import opened Ledger

  class Database {
    /** The rows of the `users` table, as seen through this connection (autocommit: every statement is committed at once). */
    var users: Table

    /** A connection to a table whose rows are `users`. */
    constructor (users: Table)
      ensures this.users == users
    {
      this.users := users;
    }

    method CreateUser(u: UserId)
      modifies this
      ensures users == Ledger.CreateUser(old(users), u)
    {
      if u !in users {
        users := users[u := DefaultCredits];
      }
    }

    method GetCredits(u: UserId) returns (credits: int)
      modifies this
      ensures credits == Ledger.GetCredits(old(users), u).credits
      ensures users == Ledger.GetCredits(old(users), u).table
    {
      if u !in users {
        // the SELECT returned no row
        CreateUser(u);
        return DefaultCredits;
      }
      credits := users[u];
    }

    method UpdateCredits(u: UserId, credits: int)
      modifies this
      ensures users == Ledger.UpdateCredits(old(users), u, credits)
    {
      if u in users {
        users := users[u := credits];
      }
    }

    method DecrementCredits(u: UserId)
      modifies this
      ensures users == Ledger.DecrementCredits(old(users), u)
    {
      if u in users {
        users := users[u := users[u] - 1];
      }
    }
  }
}
