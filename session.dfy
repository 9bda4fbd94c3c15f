/** The per-player session as the handlers change it: one field per session
    key, written step by step as `main()`, `clear()` and `set()` do. */
module Sessions {
  import opened Optional
  import opened Accounts
  import Difficulty
  import HighScores
  import opened Game

  class Session {
    var word: Option<string>      // `wrd`
    var definition: string        // `defn`
    var scrambled: string         // `scrmb_wrd`
    var score: int                // `scr`
    var points: int               // `pts`
    var tries: int                // `trys`
    var difficulty: Option<string> // `optn`

    /** The session as a value. */
    function Snapshot(): Record
      reads this
    {
      Record(word, definition, scrambled, score, points, tries, difficulty)
    }

    /** The tries stay within what a game starts with. */
    predicate Valid()
      reads this
    {
      0 <= tries <= StartTries
    }

    /** A new, empty session: no word and no difficulty chosen. The other
        keys are read only after a game has written them. */
    constructor ()
      ensures Snapshot() == Record(None, "", "", 0, 0, 0, None)
      ensures Valid()
    {
      word, definition, scrambled := None, "", "";
      score, points, tries := 0, 0, 0;
      difficulty := None;
    }

    /** `clear()`: drop the word, so the next request to `/main` starts a game. */
    method Clear()
      modifies this`word
      ensures Snapshot() == old(Snapshot()).(word := None)
      ensures !HasWord(Snapshot())
    {
      word := None;
    }

    /** Store a drawn puzzle in the session. */
    method Store(d: Draw)
      modifies this`word, this`definition, this`scrambled, this`score
      ensures Snapshot() == old(Snapshot()).(word := Some(d.word), definition := d.definition,
                                             scrambled := d.scrambled, score := d.score)
    {
      word := Some(d.word);
      definition := d.definition;
      scrambled := d.scrambled;
      score := d.score;
    }

    /** One request to `/main`; see `Game.Step`. */
    method Turn(account: Account, req: Request, start: Option<Draw>, next: Option<Draw>) returns (out: Outcome)
      modifies this
      ensures Snapshot() == Step(old(Snapshot()), account, req, start, next).rec
      ensures out == Step(old(Snapshot()), account, req, start, next).out
      ensures old(Valid()) ==> Valid()
    {
      ghost var r := Snapshot();
      if Valid() {
        TriesStayInRange(r, account, req, start, next);
      }
      var optn := Difficulty.Current(account, difficulty);
      var alert := NoAlert;
      if req.Get? {
        word := None;
      }
      if Blank(word) {
        if start.None? {
          return Redirect;
        }
        Store(start.value);
        points := 0;
        tries := StartTries;
      }
      if tries <= 0 {
        if account.SignedIn? {
          return ServerError;
        }
        return ScorePage(points, optn, NoAlert, None);
      }
      if req.Post? {
        var pts := points;
        if req.correct {
          pts := pts + score;
          alert := Gained(score);
        } else {
          tries := tries - 1;
          alert := Wrong(tries);
          if tries <= 0 {
            var write := None;
            if account.SignedIn? && HighScores.IsNew(pts, account.storedHigh) {
              alert := NewHighScore(pts, optn);
              write := Some(pts);
            }
            return ScorePage(points, optn, alert, write);
          }
        }
        if next.None? {
          return Redirect;
        }
        Store(next.value);
        points := pts;
      }
      return MainPage(scrambled, definition, points, tries, optn, alert);
    }

    /** One request to `set()`; see `Difficulty.Set`. Only the session's
        `optn` key can change. */
    method SetDifficulty(account: Account, req: Difficulty.SetRequest) returns (page: Difficulty.SetPage)
      modifies this`difficulty
      ensures page == Difficulty.Set(account, old(difficulty), req)
      ensures difficulty == page.sessionOptn
      ensures Difficulty.StoredOk(old(difficulty)) ==> Difficulty.StoredOk(difficulty)
    {
      if Difficulty.StoredOk(difficulty) {
        Difficulty.SetKeepsTiers(account, difficulty, req);
      }
      page := Difficulty.Set(account, difficulty, req);
      difficulty := page.sessionOptn;
    }
  }
}
