/** One request to the `/main` page, as a transition of the session record.
    Randomness and the word list stay outside: each call of `get_rndm` and
    `scramble` arrives as an optional `Draw`, and each call of `chk` as the
    boolean of a POST. */
module Game {
  import opened Optional
  import opened Accounts
  import Difficulty
  import HighScores

  /** A word drawn by `get_rndm(WRDS, optn)` for the current difficulty, with
      its definition, its points and what `scramble` made of it. */
  datatype Draw = Draw(word: string, definition: string, score: int, scrambled: string)

  /** A request to `/main`: a GET, or a POST whose answer `chk` judged. */
  datatype Request = Get | Post(correct: bool)

  /** The session keys the game uses: `wrd`, `defn`, `scrmb_wrd`, `scr`,
      `pts`, `trys` and `optn`. `wrd` may be absent or `None` and `optn` may
      be absent; the other keys are written together with the first word. */
  datatype Record = Record(
    word: Option<string>, definition: string, scrambled: string,
    score: int, points: int, tries: int, difficulty: Option<string>)

  /** The tries a game starts with. */
  const StartTries := 3

  datatype Alert =
    | NoAlert
    /** "+ <scr> points!" */
    | Gained(score: int)
    /** "wrong! <trys> more try/tries." */
    | Wrong(triesLeft: int)
    /** "<pts> is a new high score for <optn> difficulty!" */
    | NewHighScore(points: int, difficulty: string)

  /** What the request answers. */
  datatype Outcome =
    /** `redirect('/')`: no word could be drawn. */
    | Redirect
    /** `score.html`: the game is over. `highScoreWrite` is the value of the
        UPDATE of the player's high score, when one is issued. */
    | ScorePage(points: int, difficulty: string, alert: Alert, highScoreWrite: Option<int>)
    /** `main.html`: the puzzle to solve. */
    | MainPage(scrambled: string, definition: string, points: int, tries: int, difficulty: string, alert: Alert)
    /** An exception escapes the handler (see `Step`). */
    | ServerError

  datatype Stepped = Stepped(rec: Record, out: Outcome)

  /** `not session.get('wrd')`. */
  predicate HasWord(r: Record)
  {
    !Blank(r.word)
  }

  /** A fresh game: the drawn puzzle, no points, three tries. */
  function Begin(r: Record, d: Draw): Record
  {
    r.(word := Some(d.word), definition := d.definition, scrambled := d.scrambled,
       score := d.score, points := 0, tries := StartTries)
  }

  /** The next round: the drawn puzzle, with `points` written back. */
  function Load(r: Record, d: Draw, points: int): Record
  {
    r.(word := Some(d.word), definition := d.definition, scrambled := d.scrambled,
       score := d.score, points := points)
  }

  /** The end of the next-round path: redirect if nothing is drawn, else
      store the new puzzle and show it. */
  function Advance(r: Record, points: int, optn: string, alert: Alert, next: Option<Draw>): Stepped
  {
    if next.None? then Stepped(r, Redirect)
    else
      var r' := Load(r, next.value, points);
      Stepped(r', MainPage(r'.scrambled, r'.definition, r'.points, r'.tries, optn, alert))
  }

  /** The score page after the last try was lost. A signed-in player whose
      score beats the stored one is told so and the UPDATE is issued. */
  function GameOver(r: Record, account: Account, optn: string): Outcome
  {
    if account.SignedIn? && HighScores.IsNew(r.points, account.storedHigh) then
      ScorePage(r.points, optn, NewHighScore(r.points, optn), Some(r.points))
    else
      ScorePage(r.points, optn, Wrong(r.tries), None)
  }

  /** One request to `/main`. `start` is what the draw at the start of a game
      gives, `next` what the draw after an answer gives; each is used only
      on the path that draws.

      A request that finds no tries left ends at once: an anonymous player
      sees the score page; for a signed-in player the handler reads the local
      `pts` before anything assigned it, so the request fails. */
  function Step(r: Record, account: Account, req: Request, start: Option<Draw>, next: Option<Draw>): Stepped
  {
    var optn := Difficulty.Current(account, r.difficulty);
    var r1 := if req.Get? then r.(word := None) else r;
    if !HasWord(r1) && start.None? then Stepped(r1, Redirect)
    else
      var r2 := if HasWord(r1) then r1 else Begin(r1, start.value);
      if r2.tries <= 0 then
        Stepped(r2, if account.SignedIn? then ServerError else ScorePage(r2.points, optn, NoAlert, None))
      else if req.Get? then
        Stepped(r2, MainPage(r2.scrambled, r2.definition, r2.points, r2.tries, optn, NoAlert))
      else if req.correct then
        Advance(r2, r2.points + r2.score, optn, Gained(r2.score), next)
      else
        var r3 := r2.(tries := r2.tries - 1);
        if r3.tries <= 0 then Stepped(r3, GameOver(r3, account, optn))
        else Advance(r3, r3.points, optn, Wrong(r3.tries), next)
  }

  /** A GET starts a game: the word is dropped and a new one drawn. With a
      draw, the record holds the drawn puzzle, no points and three tries, and
      the puzzle is shown; without one, the request redirects and only the
      word has been dropped. */
  lemma GetStartsGame(r: Record, account: Account, start: Option<Draw>, next: Option<Draw>)
    ensures var s := Step(r, account, Get, start, next);
      if start.None? then s == Stepped(r.(word := None), Redirect)
      else
        var d := start.value;
        s.rec.word == Some(d.word) && s.rec.definition == d.definition &&
        s.rec.scrambled == d.scrambled && s.rec.score == d.score &&
        s.rec.points == 0 && s.rec.tries == StartTries && s.rec.difficulty == r.difficulty &&
        s.out == MainPage(d.scrambled, d.definition, 0, StartTries, Difficulty.Current(account, r.difficulty), NoAlert)
  {
  }

  /** A POST that finds no word starts a game and then judges the answer
      against the word just drawn; without a draw it redirects and changes
      nothing. */
  lemma PostWithoutWord(r: Record, account: Account, correct: bool, start: Option<Draw>, next: Option<Draw>)
    requires !HasWord(r)
    ensures start.None? ==> Step(r, account, Post(correct), start, next) == Stepped(r, Redirect)
    ensures start.Some? && start.value.word != "" ==>
      HasWord(Begin(r, start.value)) &&
      Step(r, account, Post(correct), start, next) == Step(Begin(r, start.value), account, Post(correct), None, next)
  {
  }

  /** A correct answer adds the puzzle's points and keeps the tries; the
      next puzzle is drawn and shown. If nothing can be drawn the request
      redirects and the record is left as it was, points included. */
  lemma CorrectAnswer(r: Record, account: Account, start: Option<Draw>, next: Option<Draw>)
    requires HasWord(r) && r.tries > 0
    ensures var s := Step(r, account, Post(true), start, next);
      if next.None? then s == Stepped(r, Redirect)
      else
        var d := next.value;
        s.rec.points == r.points + r.score && s.rec.tries == r.tries &&
        s.rec.word == Some(d.word) && s.rec.definition == d.definition &&
        s.rec.scrambled == d.scrambled && s.rec.score == d.score && s.rec.difficulty == r.difficulty &&
        s.out == MainPage(d.scrambled, d.definition, r.points + r.score, r.tries,
                          Difficulty.Current(account, r.difficulty), Gained(r.score))
  {
  }

  /** A wrong answer takes one try and keeps the points. Losing the last try
      shows the score page with the record's points and draws nothing: the
      puzzle stays. Otherwise the next puzzle is drawn as after a correct
      answer. */
  lemma WrongAnswer(r: Record, account: Account, start: Option<Draw>, next: Option<Draw>)
    requires HasWord(r) && r.tries > 0
    ensures var s := Step(r, account, Post(false), start, next);
      s.rec.tries == r.tries - 1 && s.rec.points == r.points && s.rec.difficulty == r.difficulty
    ensures var s := Step(r, account, Post(false), start, next);
      r.tries == 1 ==>
        s.rec == r.(tries := 0) && s.out.ScorePage? && s.out.points == r.points &&
        s.out.difficulty == Difficulty.Current(account, r.difficulty)
    ensures var s := Step(r, account, Post(false), start, next);
      r.tries > 1 && next.None? ==> s == Stepped(r.(tries := r.tries - 1), Redirect)
    ensures var s := Step(r, account, Post(false), start, next);
      r.tries > 1 && next.Some? ==>
        var d := next.value;
        s.rec.word == Some(d.word) && s.rec.definition == d.definition &&
        s.rec.scrambled == d.scrambled && s.rec.score == d.score &&
        s.out == MainPage(d.scrambled, d.definition, r.points, r.tries - 1,
                          Difficulty.Current(account, r.difficulty), Wrong(r.tries - 1))
  {
  }

  /** A POST that finds the tries used up changes nothing: an anonymous
      player sees the score page again, a signed-in player's request fails. */
  lemma NoTriesLeft(r: Record, account: Account, correct: bool, start: Option<Draw>, next: Option<Draw>)
    requires HasWord(r) && r.tries <= 0
    ensures var s := Step(r, account, Post(correct), start, next);
      s.rec == r &&
      s.out == if account.SignedIn? then ServerError
               else ScorePage(r.points, Difficulty.Current(account, r.difficulty), NoAlert, None)
  {
  }

  /** The tries stay between 0 and 3: a game starts at 3, a request that
      finds none left returns before the decrement, and a wrong answer takes
      exactly one. */
  lemma TriesStayInRange(r: Record, account: Account, req: Request, start: Option<Draw>, next: Option<Draw>)
    requires 0 <= r.tries <= StartTries
    ensures var s := Step(r, account, req, start, next);
      0 <= s.rec.tries <= StartTries &&
      (HasWord(r) && req.Post? ==> s.rec.tries == r.tries || s.rec.tries == r.tries - 1)
  {
  }

  /** Within a game (a POST that finds a word) the points either stay or grow
      by the puzzle's points; a game's points never drop unless its words
      carry negative points. */
  lemma PointsWithinGame(r: Record, account: Account, correct: bool, start: Option<Draw>, next: Option<Draw>)
    requires HasWord(r)
    ensures var s := Step(r, account, Post(correct), start, next);
      s.rec.points == r.points || (correct && s.rec.points == r.points + r.score)
    ensures r.score >= 0 ==> Step(r, account, Post(correct), start, next).rec.points >= r.points
  {
  }

  /** The high score is written, and the player told, only when a signed-in
      player's game ends with more points than the stored high score (a
      missing row counting as 0); the value written is the game's points. */
  lemma HighScoreOnlyWhenBeaten(r: Record, account: Account, req: Request, start: Option<Draw>, next: Option<Draw>)
    ensures var o := Step(r, account, req, start, next).out;
      (o.ScorePage? && o.highScoreWrite.Some?) <==>
        (o.ScorePage? && o.alert.NewHighScore?)
    ensures var o := Step(r, account, req, start, next).out;
      o.ScorePage? && o.highScoreWrite.Some? ==>
        account.SignedIn? && HighScores.IsNew(o.points, account.storedHigh) &&
        o.highScoreWrite == Some(o.points) && o.alert == NewHighScore(o.points, o.difficulty)
    ensures HasWord(r) && r.tries == 1 && account.SignedIn? ==>
      var o := Step(r, account, Post(false), start, next).out;
      o.ScorePage? && (o.highScoreWrite == Some(r.points) <==> HighScores.IsNew(r.points, account.storedHigh))
  {
  }

  /** When a signed-in player loses the last try, the high-score column
      after the UPDATE the score page reports (an UPDATE of a missing row
      changes nothing) is the column `HighScores.StoredAfter` describes. */
  lemma GameOverStoresHighScore(r: Record, account: Account, start: Option<Draw>, next: Option<Draw>)
    requires HasWord(r) && r.tries == 1 && account.SignedIn?
    ensures var o := Step(r, account, Post(false), start, next).out;
      o.ScorePage? && o.points == r.points &&
      (if o.highScoreWrite.Some? && account.storedHigh.Some? then o.highScoreWrite else account.storedHigh)
        == HighScores.StoredAfter(account.storedHigh, r.points)
  {
  }

  /** One request with the draws it may use. */
  datatype Input = Input(req: Request, start: Option<Draw>, next: Option<Draw>)

  /** The record after a run of requests, and what each request answered. */
  datatype Played = Played(rec: Record, outs: seq<Outcome>)

  /** A sequence of requests from the same player, each starting from the
      record the previous one left. */
  function Run(r: Record, account: Account, ins: seq<Input>): (p: Played)
    ensures |p.outs| == |ins|
    ensures ins != [] ==>
      p.outs[0] == Step(r, account, ins[0].req, ins[0].start, ins[0].next).out
    decreases |ins|
  {
    if ins == [] then Played(r, [])
    else
      var s := Step(r, account, ins[0].req, ins[0].start, ins[0].next);
      var rest := Run(s.rec, account, ins[1..]);
      Played(rest.rec, [s.out] + rest.outs)
  }

  /** Wrong answers, one per draw, each followed by that draw. */
  function WrongAnswers(ds: seq<Draw>): (ins: seq<Input>)
    ensures |ins| == |ds|
  {
    if ds == [] then [] else [Input(Post(false), None, Some(ds[0]))] + WrongAnswers(ds[1..])
  }

  /** A draw that keeps a game going: a non-empty word worth no negative points. */
  predicate Playable(d: Option<Draw>)
  {
    d.None? || (d.value.word != "" && d.value.score >= 0)
  }

  /** With `n` tries left, `n` wrong answers in a row end the game: every
      answer but the last shows a new puzzle, the last shows the score page
      with the points the game had, and no tries are left. */
  lemma {:induction false} WrongAnswersEndGame(r: Record, account: Account, ds: seq<Draw>)
    requires HasWord(r) && r.tries == |ds| >= 1
    requires forall i :: 0 <= i < |ds| ==> ds[i].word != ""
    ensures var p := Run(r, account, WrongAnswers(ds));
      p.rec.tries == 0 && p.rec.points == r.points &&
      p.outs[|ds| - 1].ScorePage? && p.outs[|ds| - 1].points == r.points &&
      forall i :: 0 <= i < |ds| - 1 ==> p.outs[i].MainPage?
    decreases |ds|
  {
    var ins := WrongAnswers(ds);
    var s := Step(r, account, Post(false), None, Some(ds[0]));
    WrongAnswer(r, account, None, Some(ds[0]));
    assert ins[0] == Input(Post(false), None, Some(ds[0]));
    assert ins[1..] == WrongAnswers(ds[1..]);
    var rest := Run(s.rec, account, ins[1..]);
    assert Run(r, account, ins) == Played(rest.rec, [s.out] + rest.outs);
    if |ds| == 1 {
      assert ins[1..] == [];
    } else {
      assert HasWord(s.rec);
      forall i | 0 <= i < |ds[1..]| ensures ds[1..][i].word != "" {
        assert ds[1..][i] == ds[i + 1];
      }
      WrongAnswersEndGame(s.rec, account, ds[1..]);
    }
  }

  /** Within a game, points never drop: from a record holding a word, any run
      of POSTs whose draws are playable ends with at least the points it
      started with, and still holds a word. */
  lemma {:induction false} PointsNeverDrop(r: Record, account: Account, ins: seq<Input>)
    requires HasWord(r) && r.score >= 0
    requires forall i :: 0 <= i < |ins| ==> ins[i].req.Post? && Playable(ins[i].next)
    ensures var p := Run(r, account, ins);
      HasWord(p.rec) && p.rec.score >= 0 && p.rec.points >= r.points
    decreases |ins|
  {
    if ins != [] {
      var s := Step(r, account, ins[0].req, ins[0].start, ins[0].next);
      PointsWithinGame(r, account, ins[0].req.correct, ins[0].start, ins[0].next);
      assert HasWord(s.rec) && s.rec.score >= 0;
      forall i | 0 <= i < |ins[1..]| ensures ins[1..][i].req.Post? && Playable(ins[1..][i].next) {
        assert ins[1..][i] == ins[i + 1];
      }
      PointsNeverDrop(s.rec, account, ins[1..]);
    }
  }

  /** Running requests one after another is the first request followed by
      the run of the rest. */
  lemma RunFirst(r: Record, account: Account, x: Input, ins: seq<Input>)
    ensures var s := Step(r, account, x.req, x.start, x.next);
      Run(r, account, [x] + ins) == Played(Run(s.rec, account, ins).rec, [s.out] + Run(s.rec, account, ins).outs)
  {
    assert ([x] + ins)[1..] == ins;
  }

  /** Five requests in a row answer what their steps answer, each step
      starting from the record the previous one left. */
  lemma RunFive(r: Record, account: Account, x0: Input, x1: Input, x2: Input, x3: Input, x4: Input)
    ensures var s0 := Step(r, account, x0.req, x0.start, x0.next);
      var s1 := Step(s0.rec, account, x1.req, x1.start, x1.next);
      var s2 := Step(s1.rec, account, x2.req, x2.start, x2.next);
      var s3 := Step(s2.rec, account, x3.req, x3.start, x3.next);
      var s4 := Step(s3.rec, account, x4.req, x4.start, x4.next);
      Run(r, account, [x0, x1, x2, x3, x4]) == Played(s4.rec, [s0.out, s1.out, s2.out, s3.out, s4.out])
  {
    var s0 := Step(r, account, x0.req, x0.start, x0.next);
    var s1 := Step(s0.rec, account, x1.req, x1.start, x1.next);
    var s2 := Step(s1.rec, account, x2.req, x2.start, x2.next);
    var s3 := Step(s2.rec, account, x3.req, x3.start, x3.next);
    RunFirst(s3.rec, account, x4, []);
    RunFirst(s2.rec, account, x3, [x4]);
    RunFirst(s1.rec, account, x2, [x3, x4]);
    RunFirst(s0.rec, account, x1, [x2, x3, x4]);
    RunFirst(r, account, x0, [x1, x2, x3, x4]);
    assert [x3] + [x4] == [x3, x4] && [x2] + [x3, x4] == [x2, x3, x4];
    assert [x1] + [x2, x3, x4] == [x1, x2, x3, x4] && [x0] + [x1, x2, x3, x4] == [x0, x1, x2, x3, x4];
  }

  /** A whole game: a GET draws a word, the answer is right once and then
      wrong three times, the same word being drawn each time. The game ends
      on the score page with that word's points, and no tries left. */
  lemma OneCorrectThenThreeWrong(r: Record, d: Draw)
    requires d.word != ""
    ensures var optn := Difficulty.Current(Anonymous, r.difficulty);
      var g, c, w := Input(Get, Some(d), None), Input(Post(true), None, Some(d)), Input(Post(false), None, Some(d));
      var p := Run(r, Anonymous, [g, c, w, w, w]);
      p.outs[1] == MainPage(d.scrambled, d.definition, d.score, 3, optn, Gained(d.score)) &&
      p.outs[2] == MainPage(d.scrambled, d.definition, d.score, 2, optn, Wrong(2)) &&
      p.outs[4] == ScorePage(d.score, optn, Wrong(0), None) &&
      p.rec.tries == 0 && p.rec.points == d.score
  {
    var optn := Difficulty.Current(Anonymous, r.difficulty);
    var g, c, w := Input(Get, Some(d), None), Input(Post(true), None, Some(d)), Input(Post(false), None, Some(d));
    var s0 := Step(r, Anonymous, Get, Some(d), None);
    GetStartsGame(r, Anonymous, Some(d), None);
    var s1 := Step(s0.rec, Anonymous, Post(true), None, Some(d));
    CorrectAnswer(s0.rec, Anonymous, None, Some(d));
    var s2 := Step(s1.rec, Anonymous, Post(false), None, Some(d));
    WrongAnswer(s1.rec, Anonymous, None, Some(d));
    var s3 := Step(s2.rec, Anonymous, Post(false), None, Some(d));
    WrongAnswer(s2.rec, Anonymous, None, Some(d));
    var s4 := Step(s3.rec, Anonymous, Post(false), None, Some(d));
    WrongAnswer(s3.rec, Anonymous, None, Some(d));
    RunFive(r, Anonymous, g, c, w, w, w);
  }
}
