/** What the game reads from the `users` table for the player of a request.
    The table itself is not modelled: a signed-in player's row arrives as a value. */
module Accounts {
  import opened Optional

  datatype Account =
    /** No `user_id` in the session. */
    | Anonymous
    /** A signed-in player: the difficulty option saved in the `optn` column, and
        the `score_<optn>` column for the difficulty of the current request
        (`None` when the query returns no row, a case `main()` never reaches
        because reading the saved option from the same row fails first). */
    | SignedIn(savedOptn: string, storedHigh: Option<int>)
}
