/** The sign-in page: the checks a submission passes before storage is asked to
    log in or sign up, the message shown for each outcome, the mode switch and
    the recent users offered for a quick sign-in. */
module Login {

  import opened Types
  import opened Text
  import Storage

  datatype Mode = SignIn | SignUp

  /** The page state. */
  datatype Page = Page(mode: Mode, username: string, password: string, confirm: string,
                       remember: bool, error: string)

  /** What a submission does before any storage call. */
  datatype Step =
    | Ignore                                                  // nothing happens
    | Refuse(message: string)                                 // an error is shown
    | CallSignup(username: string, password: string, remember: bool)
    | CallLogin(username: string, password: string, remember: bool)

  const MinPasswordLength: nat := 6
  const ShortPassword: string := "Roast profile must have at least 6 characters."
  const Mismatch: string := "Roast profiles do not match. Check your pour."
  const NameTaken: string := "This handle is already roasting. Try another?"
  const BadCredentials: string := "Barista couldn't find that roast or the credentials were weak."
  const Failure: string := "A brewing error occurred. Try again later."

  /** `handleSubmit`'s guard chain. */
  function Submit(p: Page): (s: Step)
    ensures s.Ignore? <==> Trim(p.username) == "" || p.password == ""
    ensures s == Refuse(ShortPassword) <==>
      Trim(p.username) != "" && p.password != "" && p.mode == SignUp && |p.password| < MinPasswordLength
    ensures s == Refuse(Mismatch) <==>
      Trim(p.username) != "" && p.password != "" && p.mode == SignUp
      && |p.password| >= MinPasswordLength && p.password != p.confirm
    ensures s.CallSignup? <==>
      Trim(p.username) != "" && p.mode == SignUp && |p.password| >= MinPasswordLength && p.password == p.confirm
    ensures s.CallLogin? <==> Trim(p.username) != "" && p.password != "" && p.mode == SignIn
    ensures s.CallSignup? || s.CallLogin? ==>
      s.username == Trim(p.username) && s.password == p.password && s.remember == p.remember
  {
    var name := Trim(p.username);
    if name == "" || p.password == "" then Ignore
    else
      match p.mode
      case SignUp =>
        if |p.password| < MinPasswordLength then Refuse(ShortPassword)
        else if p.password != p.confirm then Refuse(Mismatch)
        else CallSignup(name, p.password, p.remember)
      case SignIn => CallLogin(name, p.password, p.remember)
  }

  /** What storage answered: a user, nothing, or an exception. */
  datatype Reply = Returned(user: Option<UserProfile>) | Threw

  datatype Outcome = LoggedIn(user: UserProfile) | Shown(message: string)

  /** The outcome of a storage call: the user is passed on, a missing user shows
      the mode's message, and an exception the generic one. */
  function Finish(mode: Mode, reply: Reply): (o: Outcome)
    ensures o.LoggedIn? <==> reply.Returned? && reply.user.Some?
    ensures o.LoggedIn? ==> o.user == reply.user.value
    ensures reply.Threw? ==> o == Shown(Failure)
    ensures reply == Returned(None) ==> o == Shown(if mode == SignUp then NameTaken else BadCredentials)
  {
    match reply
    case Threw => Shown(Failure)
    case Returned(None) => Shown(if mode == SignUp then NameTaken else BadCredentials)
    case Returned(Some(u)) => LoggedIn(u)
  }

  /** Switching tabs clears the error and both password fields, keeping the name
      and the remember choice. */
  function SwitchMode(p: Page, m: Mode): (q: Page)
    ensures q.mode == m && q.error == "" && q.password == "" && q.confirm == ""
    ensures q.username == p.username && q.remember == p.remember
  {
    p.(mode := m, error := "", password := "", confirm := "")
  }

  /** Right after a switch nothing can be submitted: the password is empty. */
  lemma SwitchThenSubmitIgnored(p: Page, m: Mode)
    ensures Submit(SwitchMode(p, m)) == Ignore
  {
  }

  /** The users offered for a quick sign-in: the first three. */
  function RecentUsers(users: seq<UserProfile>): (r: seq<UserProfile>)
    ensures |r| <= 3 && |r| == if |users| < 3 then |users| else 3
    ensures r == users[..|r|]
  {
    if |users| <= 3 then users else users[..3]
  }

  /** A page that signs up and then, with the same name and password, signs in,
      logs in as the user the signup created. */
  lemma SignupPageThenLoginPage(users: seq<UserProfile>, creds: map<string, string>,
                                up: Page, newId: string, hash: string -> string)
    requires Submit(up).CallSignup?
    requires !Storage.NameTaken(users, Submit(up).username)
    ensures var inPage := up.(mode := SignIn);
      && Submit(inPage).CallLogin?
      && Storage.LoginUser(Storage.Upsert(users, Storage.NewUser(newId, Trim(up.username))),
                           creds[newId := hash(up.password)],
                           Submit(inPage).username, Submit(inPage).password, hash)
         == Some(Storage.NewUser(newId, Trim(up.username)))
  {
    Storage.SignupThenLogin(users, creds, Trim(up.username), up.password, newId, hash);
  }
}
