/** The decision taken when a signed-in player's game ends: is the score a
    new high score for the difficulty played? */
module HighScores {
  import opened Optional

  /** `h_scr = r[0] if r else 0`: a missing row counts as a high score of 0. */
  function Baseline(stored: Option<int>): (h: int)
    ensures stored.Some? ==> h == stored.value
    ensures stored.None? ==> h == 0
  {
    stored.GetOr(0)
  }

  /** `pts > h_scr`: only a strictly greater score is new; a tie is not. */
  predicate IsNew(points: int, stored: Option<int>)
  {
    points > Baseline(stored)
  }

  /** The `score_<optn>` column after the game ends. The UPDATE is issued only
      for a new high score, and it changes nothing when the row is missing. */
  function StoredAfter(stored: Option<int>, points: int): (r: Option<int>)
    ensures r.None? <==> stored.None?
    ensures stored.Some? ==> r.value == if points > stored.value then points else stored.value
    ensures stored.Some? ==> !IsNew(points, r)
    ensures stored.None? ==> (IsNew(points, r) <==> points > 0)
  {
    if stored.Some? && IsNew(points, stored) then Some(points) else stored
  }

  /** Ending a second game with the same score leaves the stored high score
      as it is, and raises no new alert when the row exists. */
  lemma SameScoreTwice(stored: Option<int>, points: int)
    ensures stored.Some? ==> !IsNew(points, StoredAfter(stored, points))
    ensures StoredAfter(StoredAfter(stored, points), points) == StoredAfter(stored, points)
  {
  }
}
