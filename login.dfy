/**
 * The submit handler of the login form (login.js): an empty-input guard on
 * the trimmed username and the raw password, then `data.users.find` for the
 * first user whose username and password both match exactly.
 */
module Login {
  import opened Wrappers
  import Text

  datatype User = User(username: string, password: string)

  datatype LoginOutcome =
    | MissingInput
    | Welcome(username: string)
    | InvalidCredentials
    | FetchFailed

  predicate Matches(user: User, username: string, password: string) {
    user.username == username && user.password == password
  }

  /** `users.find(...)`, as an index: the first user that matches, if any. */
  function FindUser(users: seq<User>, username: string, password: string): (r: Option<nat>)
    ensures r.Some? ==> r.value < |users| && Matches(users[r.value], username, password)
    ensures r.Some? ==> forall k :: 0 <= k < r.value ==> !Matches(users[k], username, password)
    ensures r.None? ==> forall k :: 0 <= k < |users| ==> !Matches(users[k], username, password)
  {
    if users == [] then None
    else if Matches(users[0], username, password) then Some(0)
    else match FindUser(users[1..], username, password)
      case None => None
      case Some(k) => Some(k + 1)
  }

  /**
   * The handler. `users` is `None` when the user list could not be fetched or
   * parsed (the `catch` branch).
   */
  function Submit(usernameInput: string, passwordInput: string, users: Option<seq<User>>): (r: LoginOutcome)
    ensures r == MissingInput <==> Text.Trim(usernameInput) == [] || passwordInput == []
    ensures r == FetchFailed <==> r != MissingInput && users.None?
    ensures r.Welcome? <==>
              r != MissingInput && users.Some?
              && exists k :: 0 <= k < |users.value| && Matches(users.value[k], Text.Trim(usernameInput), passwordInput)
    ensures r.Welcome? ==> r.username == Text.Trim(usernameInput)
  {
    var username := Text.Trim(usernameInput);
    if username == [] || passwordInput == [] then MissingInput
    else match users
      case None => FetchFailed
      case Some(list) =>
        match FindUser(list, username, passwordInput)
        case Some(k) => Welcome(list[k].username)
        case None => InvalidCredentials
  }

  /** The greeting names the first matching user of the list. */
  lemma {:induction false} WelcomesFirstMatch(usernameInput: string, passwordInput: string, users: seq<User>, k: nat)
    requires k < |users| && Matches(users[k], Text.Trim(usernameInput), passwordInput)
    requires forall j :: 0 <= j < k ==> !Matches(users[j], Text.Trim(usernameInput), passwordInput)
    requires Text.Trim(usernameInput) != [] && passwordInput != []
    ensures Submit(usernameInput, passwordInput, Some(users)) == Welcome(users[k].username)
  {
    var username := Text.Trim(usernameInput);
    var found := FindUser(users, username, passwordInput);
    assert found.Some?;
    assert found.value == k;
  }

  const MissingInputText: string := "Please enter both username and password."
  const WelcomePrefix: string := "Login successful! Welcome, "
  const InvalidText: string := "Invalid username or password."
  const FetchFailedText: string := "An error occurred while fetching user data."

  /**
   * The text the handler writes into the result area: one fixed sentence per
   * failure, and for a login the greeting with the user's name between its
   * prefix and the closing full stop.
   */
  function Message(r: LoginOutcome): (m: string)
    ensures m != []
    ensures r.Welcome? ==>
              |WelcomePrefix| < |m| && m[..|WelcomePrefix|] == WelcomePrefix
              && m[|WelcomePrefix|..|m| - 1] == r.username && m[|m| - 1] == '.'
  {
    match r
    case MissingInput => MissingInputText
    case Welcome(name) =>
      var m := WelcomePrefix + name + ".";
      assert m[|WelcomePrefix|..|m| - 1] == name;
      m
    case InvalidCredentials => InvalidText
    case FetchFailed => FetchFailedText
  }

  /** Each outcome shows a text of its own: the message tells which outcome, and whose login, it was. */
  lemma MessageIdentifiesOutcome(r1: LoginOutcome, r2: LoginOutcome)
    requires Message(r1) == Message(r2)
    ensures r1 == r2
  {
    assert Message(r1)[0] == Message(r2)[0];
  }
}
