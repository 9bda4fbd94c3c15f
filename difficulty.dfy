/** The difficulty option (`optn`): which value a page starts from, and how
    the `set()` page accepts a new one. */
module Difficulty {
  import opened Optional
  import opened Accounts

  /** The option an anonymous session without an `optn` key plays at. */
  const Default := "standard"

  /** The four difficulty tiers `set()` accepts. */
  predicate IsTier(s: string)
  {
    s == "easy" || s == "standard" || s == "hard" || s == "expert"
  }

  /** What a session may hold under `optn`: nothing yet, or a tier. */
  predicate StoredOk(sessionOptn: Option<string>)
  {
    sessionOptn.None? || IsTier(sessionOptn.value)
  }

  /** `session.get("optn", "standard")`. */
  function Fallback(sessionOptn: Option<string>): (r: string)
    ensures sessionOptn.Some? ==> r == sessionOptn.value
    ensures sessionOptn.None? ==> r == Default
    ensures StoredOk(sessionOptn) ==> IsTier(r)
  {
    sessionOptn.GetOr(Default)
  }

  /** The option `index()`, `main()` and `set()` start from: the saved column
      for a signed-in player, the session's option or the default otherwise. */
  function Current(account: Account, sessionOptn: Option<string>): (r: string)
    ensures account.Anonymous? ==> r == Fallback(sessionOptn)
    ensures account.SignedIn? ==> r == account.savedOptn
  {
    match account
    case Anonymous => Fallback(sessionOptn)
    case SignedIn(saved, _) => saved
  }

  /** A request to the `set()` page: a GET shows the form, a POST submits
      the `optn` form field (`None` when the field is absent). */
  datatype SetRequest = ShowForm | Submit(optn: Option<string>)

  datatype SetAlert =
    | NoSetAlert
    /** "Difficulty set to: <optn>." */
    | DifficultySet(optn: string)
    /** "Error editing difficulty." */
    | EditError

  /** What one request to `set()` leaves behind: the session's `optn`, the
      value written to the `optn` column (`None` when no UPDATE is issued),
      and the option and alert the page shows. */
  datatype SetPage = SetPage(sessionOptn: Option<string>, savedOptn: Option<string>, shown: string, alert: SetAlert)

  /** The `set()` page. Only a submitted tier name is stored, in the session
      and for a signed-in player also in the `optn` column; anything else
      leaves both unchanged and shows the session's option or the default. */
  function Set(account: Account, sessionOptn: Option<string>, req: SetRequest): (r: SetPage)
    ensures req.ShowForm? ==>
      r == SetPage(sessionOptn, None, Current(account, sessionOptn), NoSetAlert)
    ensures req.Submit? ==>
      (r.alert.DifficultySet? <==> req.optn.Some? && IsTier(req.optn.value))
    ensures req.Submit? && r.alert.DifficultySet? ==>
      r.sessionOptn == Some(r.alert.optn) && r.shown == r.alert.optn && req.optn == Some(r.shown) &&
      r.savedOptn == (if account.SignedIn? then Some(r.shown) else None)
    ensures req.Submit? && !r.alert.DifficultySet? ==>
      r == SetPage(sessionOptn, None, Fallback(sessionOptn), EditError)
  {
    match req
    case ShowForm => SetPage(sessionOptn, None, Current(account, sessionOptn), NoSetAlert)
    case Submit(optn) =>
      if optn.Some? && IsTier(optn.value) then
        SetPage(Some(optn.value), if account.SignedIn? then Some(optn.value) else None, optn.value, DifficultySet(optn.value))
      else
        SetPage(sessionOptn, None, Fallback(sessionOptn), EditError)
  }

  /** The session never holds anything but a tier under `optn`, so an
      anonymous player always plays at one of the four tiers, and a value
      written to the `optn` column is always a tier. */
  lemma SetKeepsTiers(account: Account, sessionOptn: Option<string>, req: SetRequest)
    requires StoredOk(sessionOptn)
    ensures StoredOk(Set(account, sessionOptn, req).sessionOptn)
    ensures IsTier(Current(Anonymous, Set(account, sessionOptn, req).sessionOptn))
    ensures StoredOk(Set(account, sessionOptn, req).savedOptn)
  {
  }
}
