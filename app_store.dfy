/**
 * The global store of the state-management demo: whether a user is logged
 * in, under which name, and the colour theme. Every action hands the store's
 * `set` a partial state, which is merged over the current one.
 */
module AppStore {
  import opened Wrappers

  const Light := "light"
  const Dark := "dark"

  /** The three store fields; `None` is the `null` username. */
  datatype AppState = AppState(isLoggedIn: bool, username: Option<string>, theme: string)

  /** A partial state as `set` receives it: a field given as `None` is left as it is. */
  datatype Patch = Patch(isLoggedIn: Option<bool>, username: Option<Option<string>>, theme: Option<string>)

  /** What `set` does with a partial state: a shallow merge. */
  function Merge(s: AppState, p: Patch): AppState {
    AppState(
      if p.isLoggedIn.Some? then p.isLoggedIn.value else s.isLoggedIn,
      if p.username.Some? then p.username.value else s.username,
      if p.theme.Some? then p.theme.value else s.theme)
  }

  const Initial := AppState(false, None, Light)

  function LoginPatch(name: string): Patch {
    Patch(Some(true), Some(Some(name)), None)
  }

  const LogoutPatch := Patch(Some(false), Some(None), None)

  function TogglePatch(s: AppState): Patch {
    Patch(None, None, Some(if s.theme == Light then Dark else Light))
  }

  /** The state `login(name)` leaves: logged in as `name`, theme untouched. */
  function AfterLogin(s: AppState, name: string): (r: AppState)
    ensures r.isLoggedIn && r.username == Some(name)
    ensures r.theme == s.theme
  {
    Merge(s, LoginPatch(name))
  }

  /** The state `logout()` leaves: logged out, no username, theme untouched. */
  function AfterLogout(s: AppState): (r: AppState)
    ensures !r.isLoggedIn && r.username == None
    ensures r.theme == s.theme
  {
    Merge(s, LogoutPatch)
  }

  /** The state `toggleTheme()` leaves: light becomes dark, anything else light; login untouched. */
  function AfterToggleTheme(s: AppState): (r: AppState)
    ensures r.isLoggedIn == s.isLoggedIn && r.username == s.username
    ensures s.theme == Light ==> r.theme == Dark
    ensures s.theme != Light ==> r.theme == Light
  {
    Merge(s, TogglePatch(s))
  }

  /** The invariant the store keeps: a username exactly when logged in, and a known theme. */
  predicate Consistent(s: AppState) {
    && (s.isLoggedIn <==> s.username.Some?)
    && (s.theme == Light || s.theme == Dark)
  }

  lemma LogoutIdempotent(s: AppState)
    ensures AfterLogout(AfterLogout(s)) == AfterLogout(s)
  {
  }

  /** Toggling twice restores the state, for either theme. */
  lemma ToggleInvolution(s: AppState)
    requires s.theme == Light || s.theme == Dark
    ensures AfterToggleTheme(AfterToggleTheme(s)) == s
  {
  }

  /** The theme toggle does not interfere with logging in or out. */
  lemma ToggleCommutes(s: AppState, name: string)
    ensures AfterToggleTheme(AfterLogin(s, name)) == AfterLogin(AfterToggleTheme(s), name)
    ensures AfterToggleTheme(AfterLogout(s)) == AfterLogout(AfterToggleTheme(s))
  {
  }

  datatype Action = Login(name: string) | Logout | ToggleTheme

  function Apply(s: AppState, a: Action): AppState {
    match a
    case Login(name) => AfterLogin(s, name)
    case Logout => AfterLogout(s)
    case ToggleTheme => AfterToggleTheme(s)
  }

  /** The state after the actions, first to last. */
  function Run(s: AppState, actions: seq<Action>): AppState
    decreases |actions|
  {
    if actions == [] then s else Run(Apply(s, actions[0]), actions[1..])
  }

  lemma ApplyPreservesConsistent(s: AppState, a: Action)
    requires Consistent(s)
    ensures Consistent(Apply(s, a))
  {
  }

  lemma {:induction false} RunPreservesConsistent(s: AppState, actions: seq<Action>)
    requires Consistent(s)
    ensures Consistent(Run(s, actions))
    decreases |actions|
  {
    if actions != [] {
      ApplyPreservesConsistent(s, actions[0]);
      RunPreservesConsistent(Apply(s, actions[0]), actions[1..]);
    }
  }

  /** Every state reachable from the initial one is consistent. */
  lemma ReachableConsistent(actions: seq<Action>)
    ensures Consistent(Run(Initial, actions))
  {
    RunPreservesConsistent(Initial, actions);
  }

  /** The store object: its fields change in place through `Set`. */
  class Store {
    var isLoggedIn: bool
    var username: Option<string>
    var theme: string

    function State(): AppState
      reads this
    {
      AppState(isLoggedIn, username, theme)
    }

    constructor ()
      ensures State() == Initial
    {
      isLoggedIn := false;
      username := None;
      theme := Light;
    }

    /** zustand's `set`: merge the partial state over the fields. */
    method Set(p: Patch)
      modifies this
      ensures State() == Merge(old(State()), p)
    {
      if p.isLoggedIn.Some? {
        isLoggedIn := p.isLoggedIn.value;
      }
      if p.username.Some? {
        username := p.username.value;
      }
      if p.theme.Some? {
        theme := p.theme.value;
      }
    }

    method Login(name: string)
      modifies this
      ensures State() == AfterLogin(old(State()), name)
      ensures old(Consistent(State())) ==> Consistent(State())
    {
      Set(LoginPatch(name));
    }

    method Logout()
      modifies this
      ensures State() == AfterLogout(old(State()))
      ensures old(Consistent(State())) ==> Consistent(State())
    {
      Set(LogoutPatch);
    }

    method ToggleTheme()
      modifies this
      ensures State() == AfterToggleTheme(old(State()))
      ensures old(Consistent(State())) ==> Consistent(State())
    {
      Set(TogglePatch(State()));
    }
  }
}
