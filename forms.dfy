/** The field checks that `login()` and `register()` run on a POST before
    they touch the database. Each check returns the message of the first
    failing condition, or `None` when the form may go on to the database. */
module Forms {
  import opened Optional

  const NoUsername := "No username provided."
  const NoPassword := "No password provided."
  const ShortPassword := "Password length must be greater than 8 characters."
  const NoConfirmation := "Must confirm password."
  const Mismatch := "Passwords do not match."

  /** Passwords shorter than this are refused by `register()`. */
  const MinPasswordLength := 8

  /** The login form check, an `if`/`elif` chain over the two fields. */
  function LoginCheck(username: Option<string>, password: Option<string>): (r: Option<string>)
    ensures r.None? <==> !Blank(username) && !Blank(password)
    ensures r == Some(NoPassword) <==> !Blank(username) && Blank(password)
  {
    if Blank(username) then Some(NoUsername)
    else if Blank(password) then Some(NoPassword)
    else None
  }

  /** The registration form check, an `if`/`elif` chain over the three fields. */
  function RegisterCheck(username: Option<string>, password: Option<string>, confirmation: Option<string>): (r: Option<string>)
    ensures r.None? <==>
      !Blank(username) && !Blank(password) && |password.value| >= MinPasswordLength &&
      !Blank(confirmation) && password.value == confirmation.value
  {
    if Blank(username) then Some(NoUsername)
    else if Blank(password) then Some(NoPassword)
    else if |password.value| < MinPasswordLength then Some(ShortPassword)
    else if Blank(confirmation) then Some(NoConfirmation)
    else if password.value != confirmation.value then Some(Mismatch)
    else None
  }

  /** One condition of a form: whether it fails, and the message shown if it is the first to fail. */
  datatype Rule = Rule(fails: bool, message: string)

  /** The reference reading of a validator: the message of the first failing rule. */
  function FirstFailure(rules: seq<Rule>): (r: Option<string>)
    ensures r.None? <==> forall i :: 0 <= i < |rules| ==> !rules[i].fails
    ensures r.Some? ==> exists i :: 0 <= i < |rules| && rules[i].fails && rules[i].message == r.value &&
                                    forall j :: 0 <= j < i ==> !rules[j].fails
  {
    if rules == [] then None
    else if rules[0].fails then Some(rules[0].message)
    else
      var rest := FirstFailure(rules[1..]);
      assert forall i :: 1 <= i < |rules| ==> rules[i] == rules[1..][i - 1];
      if rest.Some? then
        var k :| 0 <= k < |rules[1..]| && rules[1..][k].fails && rules[1..][k].message == rest.value &&
                 forall j :: 0 <= j < k ==> !rules[1..][j].fails;
        assert rules[k + 1] == rules[1..][k];
        rest
      else rest
  }

  /** The login conditions, in the order `login()` tests them. */
  function LoginRules(username: Option<string>, password: Option<string>): seq<Rule>
  {
    [Rule(Blank(username), NoUsername), Rule(Blank(password), NoPassword)]
  }

  /** The registration conditions, in the order `register()` tests them; each
      later condition only matters once the earlier ones have passed. */
  function RegisterRules(username: Option<string>, password: Option<string>, confirmation: Option<string>): seq<Rule>
  {
    LoginRules(username, password) +
    [ Rule(password.Some? && |password.value| < MinPasswordLength, ShortPassword),
      Rule(Blank(confirmation), NoConfirmation),
      Rule(password != confirmation, Mismatch) ]
  }

  /** The login check reports exactly the first failing login rule. */
  lemma LoginIsFirstFailure(username: Option<string>, password: Option<string>)
    ensures LoginCheck(username, password) == FirstFailure(LoginRules(username, password))
  {
    var rules := LoginRules(username, password);
    assert rules[1..][1..] == [];
  }

  /** The registration check reports exactly the first failing registration rule. */
  lemma RegisterIsFirstFailure(username: Option<string>, password: Option<string>, confirmation: Option<string>)
    ensures RegisterCheck(username, password, confirmation) == FirstFailure(RegisterRules(username, password, confirmation))
  {
    var rules := RegisterRules(username, password, confirmation);
    var tail3 := [Rule(Blank(confirmation), NoConfirmation), Rule(password != confirmation, Mismatch)];
    var tail2 := [Rule(password.Some? && |password.value| < MinPasswordLength, ShortPassword)] + tail3;
    assert rules[1..] == [Rule(Blank(password), NoPassword)] + tail2;
    assert rules[1..][1..] == tail2 && tail2[1..] == tail3 && tail3[1..][1..] == [];
    assert FirstFailure(tail3[1..]) == if password != confirmation then Some(Mismatch) else None;
    assert FirstFailure(tail3) == if Blank(confirmation) then Some(NoConfirmation) else FirstFailure(tail3[1..]);
    assert FirstFailure(tail2) == if tail2[0].fails then Some(ShortPassword) else FirstFailure(tail3);
    assert FirstFailure(rules[1..]) == if Blank(password) then Some(NoPassword) else FirstFailure(tail2);
  }

  /** Appending rules never changes the verdict of a prefix that already fails. */
  lemma {:induction false} FirstFailureOfPrefix(a: seq<Rule>, b: seq<Rule>)
    ensures FirstFailure(a).Some? ==> FirstFailure(a + b) == FirstFailure(a)
    ensures FirstFailure(a).None? ==> FirstFailure(a + b) == FirstFailure(b)
  {
    if a == [] {
      assert a + b == b;
    } else {
      assert (a + b)[0] == a[0];
      assert (a + b)[1..] == a[1..] + b;
      FirstFailureOfPrefix(a[1..], b);
    }
  }

  /** Registration refuses a form the login check would refuse, with the same
      message, whatever the confirmation field holds. */
  lemma RegisterExtendsLogin(username: Option<string>, password: Option<string>, confirmation: Option<string>)
    ensures LoginCheck(username, password).Some? ==>
      RegisterCheck(username, password, confirmation) == LoginCheck(username, password)
  {
    LoginIsFirstFailure(username, password);
    RegisterIsFirstFailure(username, password, confirmation);
    FirstFailureOfPrefix(LoginRules(username, password),
      RegisterRules(username, password, confirmation)[2..]);
    assert RegisterRules(username, password, confirmation) ==
      LoginRules(username, password) + RegisterRules(username, password, confirmation)[2..];
  }

  /** The length check is `len(password) < 8`: a password of exactly eight
      characters passes it, although the message speaks of "greater than 8",
      and one of seven characters is refused with the length message. */
  lemma EightCharactersPass(username: string, password: string)
    requires username != ""
    ensures |password| == 8 ==> RegisterCheck(Some(username), Some(password), Some(password)).None?
    ensures |password| == 7 ==> RegisterCheck(Some(username), Some(password), Some(password)) == Some(ShortPassword)
  {
  }
}
