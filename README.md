# Unscramble game: turn engine, form checks and difficulty option

This project models the sequential logic of `app.py`, the Flask application of a
single-player word-unscrambling game, and proves properties of it in Dafny.

* **The `/main` turn** (`main()`): the per-player session holds the current
  puzzle (`wrd`, `defn`, `scrmb_wrd`, `scr`), the points so far (`pts`) and the
  tries left (`trys`). A GET, or a request that finds no word, starts a game
  with 0 points and 3 tries. A POST judges the answer: a correct one adds the
  puzzle's points, a wrong one takes a try; when the last try is lost the score
  page is shown and, for a signed-in player, the high score for the difficulty
  is replaced if the game beat it. Otherwise a new word is drawn. The session is
  the class `Sessions.Session`, whose method `Turn` changes its fields step by
  step; `Game.Step` is the same request as a function on a `Game.Record`, and
  `Turn` is proved to do exactly what `Step` says. The lemmas about `Step` and
  about `Game.Run` (several requests in a row) state the game's invariants.
* **Form checks** (`login()` and `register()`): `Forms.LoginCheck` and
  `Forms.RegisterCheck` return the message of the first failing check, and are
  proved equal to the first failure of their ordered rule lists.
* **The difficulty option** (`set()` and the `optn` fallback of `index()`,
  `main()` and `set()`): `Difficulty.Set` accepts only `easy`, `standard`,
  `hard` and `expert`.

The helpers `get_rndm`, `scramble` and `chk` (module `helpers`) are not part of
this model. Each word drawn and scrambled for a request arrives as an optional
`Game.Draw`; the verdict of `chk` arrives as the boolean of `Game.Post`. A POST
that finds no word in the session draws twice (once to start the game, once
after the answer), so a turn takes two optional draws, `start` and `next`.
The database rows a request reads arrive as an `Accounts.Account`: the saved
`optn` column and the `score_<optn>` column of a signed-in player. The
high-score column may be given as "no row", because app.py:203 handles that
case, but it cannot arise in `main()`: without a row, reading the saved option
at app.py:115 fails first.
Alerts are a datatype carrying the numbers each message formats.

Behaviour of the code as written that the model keeps:

* A request that finds no tries left shows the score page to an anonymous
  player, but for a signed-in player it reads the local `pts` before anything
  assigned it (app.py:154), so the request fails: `Game.ServerError`.
* A correct answer whose next draw fails redirects without writing the new
  points back: the points of that answer are lost (`Game.CorrectAnswer`).
* The "no row counts as 0" branch of app.py:203 is modelled as written (a
  missing row would raise the alert for any positive score while the UPDATE
  matches no row, `HighScores.StoredAfter`), but `main()` cannot reach it:
  for a signed-in player without a row, app.py:115 fails first.
* The length check is `len(password) < 8`: a password of exactly 8 characters
  passes, although the message says "greater than 8".
* For a signed-in player, an invalid submission to `set()` shows the session's
  option (or `standard`), not the saved column.

Further facts about `app.py` that the model states:

* A difficulty change takes effect on the next request: the option is read
  afresh each time, and the puzzle already in the session stays.
* A game's points only stay or grow when the drawn words carry non-negative
  points; nothing in `app.py` constrains the points of a drawn word.
* No score is reported or recorded at the end of an anonymous player's game.

## Model

| member | source | states |
|---|---|---|
| `Sessions.Session.Turn` | app.py:120-238 | the session's new fields and the response are exactly those of `Game.Step` on the old session; the tries stay within 0..3 |
| `Sessions.Session.Clear` | app.py:20-23 | only the word is dropped, so the next `/main` request starts a game |
| `Sessions.Session.SetDifficulty` | app.py:347-365 | the page is that of `Difficulty.Set`; only the session's `optn` changes, and it stays a tier name |
| `Game.GetStartsGame` | app.py:120-140 | a GET drops the word; with a draw the session holds the drawn word, definition, scramble and points, with 0 points and 3 tries, and the puzzle is shown; without one the request redirects and nothing else changes |
| `Game.PostWithoutWord` | app.py:124-140 | a POST with no word redirects unchanged when nothing is drawn, and, when the drawn word is non-empty, behaves as the same POST on a game started with that word |
| `Game.CorrectAnswer` | app.py:183-235 | a correct answer adds exactly the puzzle's points, keeps the tries and shows a freshly drawn puzzle with a "+ points" alert; if the draw fails the request redirects and the session is unchanged |
| `Game.WrongAnswer` | app.py:189-235 | a wrong answer takes exactly one try and keeps the points; losing the last try shows the score page with the session's points and leaves the puzzle; otherwise a fresh puzzle is shown, or the request redirects if none is drawn |
| `Game.NoTriesLeft` | app.py:142-172 | a POST that finds no tries left changes nothing; an anonymous player sees the score page, a signed-in player's request fails |
| `Game.TriesStayInRange` | app.py:140-192 | from tries in 0..3 every request leaves tries in 0..3, and within a game a POST keeps them or takes one |
| `Game.PointsWithinGame` | app.py:180-235 | a POST on a session with a word keeps the points or (on a correct answer) adds the puzzle's points, so they never drop for non-negative puzzle points |
| `Game.HighScoreOnlyWhenBeaten` | app.py:195-221 | a high-score UPDATE is issued exactly when the "new high score" alert is shown, only for a signed-in player whose points are strictly above the stored score (missing row = 0), and it writes the game's points |
| `Game.Run` | app.py:102-238 | a run of requests gives one response per request, the first being that of the first step |
| `Game.WrongAnswersEndGame` | app.py:189-221 | with n tries left, n wrong answers in a row show n-1 new puzzles, then the score page with the points the game had, leaving 0 tries |
| `Game.PointsNeverDrop` | app.py:180-235 | over any run of POSTs within a game whose draws are playable, the session keeps a word and the points never drop |
| `Game.OneCorrectThenThreeWrong` | app.py:120-221 | a GET, one correct answer and three wrong ones end on the score page with the word's points and 0 tries, the alerts being "+ points" then "2 more tries" |
| `Forms.LoginCheck` | app.py:58-64 | the login form passes exactly when username and password are both non-empty; the password message is given exactly when only the password is missing |
| `Forms.LoginIsFirstFailure` | app.py:58-64 | the login check returns the message of the first failing rule, username before password |
| `Forms.RegisterCheck` | app.py:251-269 | the registration form passes exactly when the username is non-empty, the password non-empty and at least 8 characters, the confirmation non-empty and equal to the password |
| `Forms.RegisterIsFirstFailure` | app.py:251-269 | the registration check returns the message of the first failing rule in the order username, password, length, confirmation, match |
| `Forms.RegisterExtendsLogin` | app.py:251-257 | a form that fails the login checks fails registration with the same message, whatever the confirmation |
| `Forms.EightCharactersPass` | app.py:259-261 | a password of exactly 8 characters passes the length check; one of 7 is refused with the length message |
| `Difficulty.Fallback` | app.py:343 | the session's option, or "standard" when there is none; a tier whenever the session holds nothing or a tier |
| `Difficulty.Current` | app.py:109-118 | a signed-in player starts from the saved option, an anonymous one from the session's option or "standard" |
| `Difficulty.Set` | app.py:343-365 | a GET shows the current option; a POST is accepted exactly when the submitted value is one of the four tier names, storing it in the session (and the saved column when signed in); otherwise nothing is stored and the session's option or "standard" is shown with an error |
| `Difficulty.SetKeepsTiers` | app.py:349-353 | the session and the saved column only ever receive tier names, so an anonymous player always plays at a tier |
| `Game.GameOverStoresHighScore` | app.py:195-211 | when a signed-in player loses the last try, the high-score column after the UPDATE the score page reports is `HighScores.StoredAfter` of the old column and the game's points |
| `HighScores.Baseline` | app.py:203 | the stored high score, or 0 when there is no row |
| `HighScores.StoredAfter` | app.py:203-211 | after a game the stored high score is the larger of the old one and the game's points; with no row (a branch `main()` cannot reach, see above) nothing is stored and the alert comes for any positive score |
| `HighScores.SameScoreTwice` | app.py:205-211 | ending a second game with the same score changes nothing and, when the row exists, raises no alert |

## Left out

- Flask routing, `render_template`, `redirect` and the 204 response of `clear()`: the responses are the `Game.Outcome` and `Difficulty.SetPage` datatypes.
- The database: every query, commit and the `scores` history INSERT at game end (app.py:163-170, 213-219); the stored values a request reads are inputs (`Accounts.Account`), and the high-score UPDATE is reported as a value of the score page.
- The missing-row and NULL cases of the `optn` and `score_<optn>` columns beyond "no row" (a TypeError in Python): `Accounts.Account` holds the saved option as a string.
- The high-score logic of the early game-over branch (app.py:144-170): for a signed-in player the request fails at app.py:154, which the model keeps as `Game.ServerError`; the queries before it are persistence.
- `helpers.py` (`chk`, `get_rndm`, `scramble`, `set_wrds`) is not part of this model: draws and verdicts are inputs, and nothing is claimed about scrambles.
- Game.PointsNeverDrop: holds only for draws with non-empty words and non-negative points, because nothing visible shows what `get_rndm` returns.
- Password hashing, the credential check of `login()` (app.py:66-84), the user INSERT and duplicate-username check of `register()` (app.py:271-298) and the exception handlers (app.py:89-92, 303-306): foreign library calls and persistence.
- `session.clear()` in `login()`, `logout()` and `register()`, and the `index()`, `info()` and `scores()` pages: they only clear or render.
- Session keys other than `wrd` and `optn` are modelled as always present: `main()` writes them together with the first word, and reads them only after.
