/** The authentication store: who is signed in, whether a check is in
    progress, and the one durable storage slot it writes through to.
    Operations return the navigation and notice they cause as values. */
module Session {
  import opened Common

  datatype Role = UserRole | AdminRole

  datatype User = User(id: string, name: string, email: string, profileImg: Option<string>, role: Role)

  /** `user` is the in-memory user, `stored` the durable slot under the
      key "femfinhub-user". */
  datatype AuthState = AuthState(user: Option<User>, isLoading: bool, stored: Option<User>)

  /** What an operation asks of the rest of the application. */
  datatype Effect = Effect(notice: Option<Notice>, navigateTo: Option<string>)

  /** The result of one completed operation. */
  datatype Step = Step(state: AuthState, effect: Effect)

  const DEMO_EMAIL: string := "demo@femfinhub.com"
  const DEMO_PASSWORD: string := "password"

  /** The account the demo credentials sign in to. */
  const DemoUser: User := User("1", "Jane Doe", DEMO_EMAIL, None, UserRole)

  /** The three states the guard distinguishes. */
  datatype Phase = Resolving | Anonymous | Authenticated

  predicate IsAuthenticated(a: AuthState)
  {
    a.user.Some?
  }

  function PhaseOf(a: AuthState): Phase
  {
    if a.isLoading then Resolving
    else if IsAuthenticated(a) then Authenticated
    else Anonymous
  }

  /** The in-memory user and the storage slot agree. */
  predicate WriteThrough(a: AuthState)
  {
    a.user == a.stored
  }

  // ---------------------------------------------------------------------
  // Start-up
  // ---------------------------------------------------------------------

  /** The provider as first rendered: nobody signed in, still loading,
      whatever the slot holds. */
  function Mount(stored: Option<User>): AuthState
  {
    AuthState(None, true, stored)
  }

  /** `checkAuth`: adopt the stored user if there is one, then stop loading. */
  function CheckAuth(a: AuthState): (r: AuthState)
    ensures !r.isLoading && r.stored == a.stored
    ensures r.user == (if a.stored.Some? then a.stored else a.user)
  {
    AuthState(if a.stored.Some? then a.stored else a.user, false, a.stored)
  }

  /** After the start-up check the session reflects exactly what was stored. */
  lemma LoadAdoptsStoredUser(stored: Option<User>)
    ensures CheckAuth(Mount(stored)).user == stored
    ensures WriteThrough(CheckAuth(Mount(stored)))
    ensures PhaseOf(Mount(stored)) == Resolving
    ensures PhaseOf(CheckAuth(Mount(stored))) == (if stored.Some? then Authenticated else Anonymous)
  {
  }

  // ---------------------------------------------------------------------
  // Sign-in, sign-up, sign-out
  // ---------------------------------------------------------------------

  /** Entering `signIn` or `signUp`: loading starts, nothing else changes. */
  function Begin(a: AuthState): (r: AuthState)
    ensures r.isLoading && r.user == a.user && r.stored == a.stored
  {
    a.(isLoading := true)
  }

  const SignedInNotice: Notice := Notice("Logged in successfully", "Welcome back to FemFinHub!", false)
  const LoginFailedNotice: Notice :=
    Notice("Login failed", "Invalid email or password. Try demo@femfinhub.com/password", true)
  const LoginErrorNotice: Notice :=
    Notice("Login error", "An unexpected error occurred. Please try again.", true)
  const AccountCreatedNotice: Notice := Notice("Account created", "Welcome to FemFinHub!", false)
  const SignupErrorNotice: Notice :=
    Notice("Signup error", "An unexpected error occurred. Please try again.", true)
  const LoggedOutNotice: Notice := Notice("Logged out", "You have been logged out successfully.", false)

  /** The end of `signIn`, after the simulated delay. `storageWritable`
      says whether writing the slot succeeds; when it throws, the catch
      branch reports a generic error. Loading always stops. */
  function FinishSignIn(a: AuthState, email: string, password: string, storageWritable: bool): Step
  {
    if email == DEMO_EMAIL && password == DEMO_PASSWORD then
      if storageWritable then
        Step(AuthState(Some(DemoUser), false, Some(DemoUser)), Effect(Some(SignedInNotice), Some("/dashboard")))
      else
        Step(a.(isLoading := false), Effect(Some(LoginErrorNotice), None))
    else
      Step(a.(isLoading := false), Effect(Some(LoginFailedNotice), None))
  }

  function SignIn(a: AuthState, email: string, password: string, storageWritable: bool): (r: Step)
    ensures !r.state.isLoading
    ensures r.state.user == (if email == DEMO_EMAIL && password == DEMO_PASSWORD && storageWritable
                             then Some(DemoUser) else a.user)
    ensures r.state.stored == r.state.user || r.state.stored == a.stored
    ensures r.effect.navigateTo.Some? <==> r.state.user == Some(DemoUser) && r.state.stored == Some(DemoUser)
                                           && email == DEMO_EMAIL && password == DEMO_PASSWORD && storageWritable
  {
    FinishSignIn(Begin(a), email, password, storageWritable)
  }

  /** The demo credentials sign in to the demo account, store it, and go
      to the dashboard; any other pair changes neither the user nor the
      slot, shows a destructive notice and stays put. */
  lemma SignInOutcomes(a: AuthState, email: string, password: string)
    ensures var r := SignIn(a, email, password, true);
      if email == DEMO_EMAIL && password == DEMO_PASSWORD then
        r.state == AuthState(Some(DemoUser), false, Some(DemoUser))
        && r.effect == Effect(Some(SignedInNotice), Some("/dashboard"))
      else
        r.state == a.(isLoading := false)
        && r.effect.navigateTo.None?
        && r.effect.notice.Some? && r.effect.notice.value.destructive
  {
  }

  /** `signUp` accepts any input: it stores and signs in a new account
      with the placeholder id "1" and the default role. */
  function FinishSignUp(a: AuthState, name: string, email: string, storageWritable: bool): Step
  {
    if storageWritable then
      var u := User("1", name, email, None, UserRole);
      Step(AuthState(Some(u), false, Some(u)), Effect(Some(AccountCreatedNotice), Some("/dashboard")))
    else
      Step(a.(isLoading := false), Effect(Some(SignupErrorNotice), None))
  }

  function SignUp(a: AuthState, name: string, email: string, password: string, storageWritable: bool): (r: Step)
    ensures !r.state.isLoading
    ensures storageWritable ==>
      && r.state.user == Some(User("1", name, email, None, UserRole))
      && WriteThrough(r.state)
      && r.effect.navigateTo == Some("/dashboard")
    ensures !storageWritable ==>
      r.state.user == a.user && r.state.stored == a.stored && r.effect.navigateTo.None?
  {
    FinishSignUp(Begin(a), name, email, storageWritable)
  }

  /** `signOut`: clear the slot, forget the user, go to the landing page. */
  function SignOut(a: AuthState): (r: Step)
    ensures r.state.user.None? && r.state.stored.None?
    ensures r.state.isLoading == a.isLoading
    ensures r.effect.navigateTo == Some("/")
  {
    Step(AuthState(None, a.isLoading, None), Effect(Some(LoggedOutNotice), Some("/")))
  }

  // ---------------------------------------------------------------------
  // The state machine
  // ---------------------------------------------------------------------

  /** The operations a user can trigger once the start-up check is done. */
  datatype Action =
    | SignInAction(email: string, password: string, storageWritable: bool)
    | SignUpAction(name: string, email: string, password: string, storageWritable: bool)
    | SignOutAction

  function Apply(a: AuthState, act: Action): Step
  {
    match act
    case SignInAction(e, p, w) => SignIn(a, e, p, w)
    case SignUpAction(n, e, p, w) => SignUp(a, n, e, p, w)
    case SignOutAction => SignOut(a)
  }

  /** Every completed operation leaves the session in a definite state
      (never loading), keeps memory and storage in agreement, and only
      sign-out ever leaves the authenticated state. */
  lemma ApplyKeepsInvariant(a: AuthState, act: Action)
    requires WriteThrough(a) && !a.isLoading
    ensures WriteThrough(Apply(a, act).state)
    ensures PhaseOf(Apply(a, act).state) != Resolving
    ensures PhaseOf(a) == Authenticated && !act.SignOutAction?
        ==> PhaseOf(Apply(a, act).state) == Authenticated
    ensures act.SignOutAction? ==> PhaseOf(Apply(a, act).state) == Anonymous
  {
  }

  /** Running a sequence of operations from the loaded state. */
  function Run(a: AuthState, acts: seq<Action>): AuthState
    decreases |acts|
  {
    if |acts| == 0 then a else Run(Apply(a, acts[0]).state, acts[1..])
  }

  /** Whatever the users do after start-up, memory and storage agree and
      the session is never left loading. */
  lemma {:induction false} RunKeepsInvariant(stored: Option<User>, acts: seq<Action>)
    ensures WriteThrough(Run(CheckAuth(Mount(stored)), acts))
    ensures !Run(CheckAuth(Mount(stored)), acts).isLoading
  {
    RunFrom(CheckAuth(Mount(stored)), acts);
  }

  lemma {:induction false} RunFrom(a: AuthState, acts: seq<Action>)
    requires WriteThrough(a) && !a.isLoading
    ensures WriteThrough(Run(a, acts)) && !Run(a, acts).isLoading
    decreases |acts|
  {
    if |acts| > 0 {
      ApplyKeepsInvariant(a, acts[0]);
      RunFrom(Apply(a, acts[0]).state, acts[1..]);
    }
  }
}
