/** The page router: two flags, isAuthenticated and showTransition, choose
    one of three screens. A successful login shows the transition at once; a
    2500 ms timer then sets isAuthenticated and hides the transition. */
module Home {

  const TransitionMillis: nat := 2500

  datatype Screen = Login | Transition | Main

  /** The login branch's render condition. */
  predicate RendersLogin(isAuthenticated: bool, showTransition: bool) {
    !isAuthenticated && !showTransition
  }

  /** The transition branch's render condition. */
  predicate RendersTransition(isAuthenticated: bool, showTransition: bool) {
    showTransition
  }

  /** The main experience branch's render condition. */
  predicate RendersMain(isAuthenticated: bool, showTransition: bool) {
    isAuthenticated && !showTransition
  }

  /** The screen on display: the one branch whose condition holds. */
  function ScreenFor(isAuthenticated: bool, showTransition: bool): (s: Screen)
    ensures s == Login <==> RendersLogin(isAuthenticated, showTransition)
    ensures s == Transition <==> RendersTransition(isAuthenticated, showTransition)
    ensures s == Main <==> RendersMain(isAuthenticated, showTransition)
  {
    if showTransition then Transition
    else if isAuthenticated then Main
    else Login
  }

  /** In each of the four flag combinations exactly one branch renders. */
  lemma ExactlyOneScreen(isAuthenticated: bool, showTransition: bool)
    ensures RendersLogin(isAuthenticated, showTransition) || RendersTransition(isAuthenticated, showTransition)
      || RendersMain(isAuthenticated, showTransition)
    ensures !(RendersLogin(isAuthenticated, showTransition) && RendersTransition(isAuthenticated, showTransition))
    ensures !(RendersLogin(isAuthenticated, showTransition) && RendersMain(isAuthenticated, showTransition))
    ensures !(RendersTransition(isAuthenticated, showTransition) && RendersMain(isAuthenticated, showTransition))
  {
  }

  /** How far along the route login, transition, main a screen is. */
  function Stage(s: Screen): (n: nat)
    ensures n <= 2
    ensures (s == Login <==> n == 0) && (s == Main <==> n == 2)
  {
    match s
    case Login => 0
    case Transition => 1
    case Main => 2
  }

  /** The page's two flags and the login timers still pending. */
  class HomePage {
    var isAuthenticated: bool
    var showTransition: bool
    var pendingLoginTimers: nat

    /** The transition shows exactly while the one login timer is pending. */
    ghost predicate Valid()
      reads this
    {
      (showTransition <==> pendingLoginTimers > 0) && pendingLoginTimers <= 1
    }

    function Current(): Screen
      reads this
    {
      ScreenFor(isAuthenticated, showTransition)
    }

    constructor ()
      ensures Valid() && Current() == Login
      ensures !isAuthenticated && !showTransition && pendingLoginTimers == 0
    {
      isAuthenticated, showTransition, pendingLoginTimers := false, false, 0;
    }

    /** The login screen's `onSuccess` (only the login screen can call it):
        the transition shows and its timer is scheduled. */
    method HandleSuccessfulLogin()
      requires Valid() && Current() == Login
      modifies this
      ensures Valid() && Current() == Transition
      ensures showTransition && isAuthenticated == old(isAuthenticated)
      ensures pendingLoginTimers == old(pendingLoginTimers) + 1
      ensures Stage(old(Current())) < Stage(Current())
    {
      showTransition := true;
      pendingLoginTimers := pendingLoginTimers + 1;
    }

    /** The 2500 ms timer: authenticated, transition hidden, main shows. */
    method TransitionTimerFires()
      requires Valid() && pendingLoginTimers > 0
      modifies this
      ensures Valid() && Current() == Main
      ensures isAuthenticated && !showTransition
      ensures pendingLoginTimers == old(pendingLoginTimers) - 1
      ensures Stage(old(Current())) < Stage(Current())
    {
      isAuthenticated := true;
      showTransition := false;
      pendingLoginTimers := pendingLoginTimers - 1;
    }
  }

  /** On the main screen the page is authenticated and no timer is left to
      fire; no handler sets isAuthenticated back to false, so it stays there. */
  lemma MainIsFinal(page: HomePage)
    requires page.Valid() && page.Current() == Main
    ensures page.isAuthenticated && page.pendingLoginTimers == 0
  {
  }
}
