/** The root of the app: the three flags that decide between nothing, the
    main tabs and the sign-in stack, the events that change them, and the
    icon chosen for each tab. The authentication service is represented by
    the user its state callback reports. */
module AuthGate {
  import opened Common

  /** The flags of the root component. */
  datatype GateState = GateState(isLoggedIn: bool, isGuest: bool, loading: bool)

  /** Signed out, not a guest, waiting for the first callback. */
  const InitialGate: GateState := GateState(false, false, true)

  /** What the root renders. */
  datatype Screen = NothingShown | MainTabs | AuthStack

  function ScreenFor(s: GateState): (screen: Screen)
    ensures screen.NothingShown? <==> s.loading
    ensures screen.MainTabs? <==> !s.loading && (s.isLoggedIn || s.isGuest)
    ensures screen.AuthStack? <==> !s.loading && !s.isLoggedIn && !s.isGuest
  {
    if s.loading then NothingShown
    else if s.isLoggedIn || s.isGuest then MainTabs
    else AuthStack
  }

  /** The auth-state callback (with the user it reports, if any) and the
      guest action of the sign-in screen. */
  datatype GateEvent = AuthChanged(user: Option<string>) | GuestChosen

  function Apply(s: GateState, e: GateEvent): GateState {
    match e
    case AuthChanged(user) => s.(isLoggedIn := user.Some?, loading := false)
    case GuestChosen => s.(isGuest := true)
  }

  /** The state after a sequence of events. */
  function Run(s: GateState, events: seq<GateEvent>): GateState
    decreases |events|
  {
    if events == [] then s else Run(Apply(s, events[0]), events[1..])
  }

  predicate HasAuthCallback(events: seq<GateEvent>) {
    exists i :: 0 <= i < |events| && events[i].AuthChanged?
  }

  predicate HasGuestChoice(events: seq<GateEvent>) {
    exists i :: 0 <= i < |events| && events[i].GuestChosen?
  }

  /** Once a guest, always a guest; no event clears the flag. */
  lemma {:induction false} GuestIsSticky(s: GateState, events: seq<GateEvent>)
    ensures Run(s, events).isGuest <==> s.isGuest || HasGuestChoice(events)
    decreases |events|
  {
    if events != [] {
      GuestIsSticky(Apply(s, events[0]), events[1..]);
      assert forall i :: 0 < i < |events| ==> events[i] == events[1..][i - 1];
      if HasGuestChoice(events[1..]) {
        var i :| 0 <= i < |events[1..]| && events[1..][i].GuestChosen?;
        assert events[i + 1].GuestChosen?;
      }
    }
  }

  /** Loading ends with the first auth callback and never comes back. */
  lemma {:induction false} LoadingUntilFirstCallback(s: GateState, events: seq<GateEvent>)
    ensures Run(s, events).loading <==> s.loading && !HasAuthCallback(events)
    decreases |events|
  {
    if events != [] {
      LoadingUntilFirstCallback(Apply(s, events[0]), events[1..]);
      assert forall i :: 0 < i < |events| ==> events[i] == events[1..][i - 1];
      if HasAuthCallback(events[1..]) {
        var i :| 0 <= i < |events[1..]| && events[1..][i].AuthChanged?;
        assert events[i + 1].AuthChanged?;
      }
    }
  }

  /** From start-up: nothing is shown until the first callback, and a user
      who chose to continue as a guest sees the main tabs from then on,
      whatever the callbacks report. */
  lemma ScreenFromStart(events: seq<GateEvent>)
    ensures ScreenFor(Run(InitialGate, events)).NothingShown? <==> !HasAuthCallback(events)
    ensures HasAuthCallback(events) && HasGuestChoice(events) ==>
      ScreenFor(Run(InitialGate, events)) == MainTabs
  {
    LoadingUntilFirstCallback(InitialGate, events);
    GuestIsSticky(InitialGate, events);
  }

  /** A guest stays in the main tabs after signing out. */
  lemma GuestSignOut()
    ensures ScreenFor(Run(InitialGate, [AuthChanged(None), GuestChosen, AuthChanged(Some("u")), AuthChanged(None)])) == MainTabs
  {
  }

  /** The root component's state. */
  class AppGate {
    var isLoggedIn: bool
    var isGuest: bool
    var loading: bool

    function State(): GateState
      reads this
    {
      GateState(isLoggedIn, isGuest, loading)
    }

    constructor ()
      ensures State() == InitialGate
      ensures ScreenFor(State()) == NothingShown
    {
      isLoggedIn := false;
      isGuest := false;
      loading := true;
    }

    /** The auth-state callback: signed in iff a user is reported, and the
        wait is over. */
    method OnAuthStateChanged(user: Option<string>)
      modifies this
      ensures State() == Apply(old(State()), AuthChanged(user))
      ensures isLoggedIn == user.Some? && !loading && isGuest == old(isGuest)
    {
      isLoggedIn := user.Some?;
      loading := false;
    }

    /** `setIsGuest(true)`, the only value it is ever called with. */
    method ContinueAsGuest()
      modifies this
      ensures State() == Apply(old(State()), GuestChosen)
      ensures isGuest && isLoggedIn == old(isLoggedIn) && loading == old(loading)
    {
      isGuest := true;
    }
  }

  // ---------------------------------------------------------------------
  // Tab icons.

  /** The five tabs, in their order in the tab bar. */
  const TabRoutes: seq<string> := ["Ana Sayfa", "Ürünler", "Sepet", "Favoriler", "Profilim"]

  /** The filled icon of each tab. */
  function FilledIcon(route: string): Option<string> {
    if route == "Ana Sayfa" then Some("home")
    else if route == "Sepet" then Some("cart")
    else if route == "Favoriler" then Some("heart")
    else if route == "Ürünler" then Some("grid")
    else if route == "Profilim" then Some("person")
    else None
  }

  /** `tabBarIcon`: the filled icon for the focused tab, its outline
      variant otherwise, and "home" for a route it does not know. */
  function TabBarIcon(route: string, focused: bool): (icon: string)
    ensures FilledIcon(route).None? ==> icon == "home"
    ensures FilledIcon(route).Some? && focused ==> icon == FilledIcon(route).value
    ensures FilledIcon(route).Some? && !focused ==> icon == FilledIcon(route).value + "-outline"
  {
    match FilledIcon(route)
    case None => "home"
    case Some(name) => if focused then name else name + "-outline"
  }

  /** Every tab has an icon, the five filled icons are distinct, and a
      tab's icon changes with focus exactly by the "-outline" suffix. */
  lemma TabIconsWellFormed()
    ensures forall i :: 0 <= i < |TabRoutes| ==> FilledIcon(TabRoutes[i]).Some?
    ensures forall i, j :: 0 <= i < j < |TabRoutes| ==> TabBarIcon(TabRoutes[i], true) != TabBarIcon(TabRoutes[j], true)
    ensures forall i :: 0 <= i < |TabRoutes| ==>
      TabBarIcon(TabRoutes[i], false) == TabBarIcon(TabRoutes[i], true) + "-outline"
  {
  }

  /** A route outside the tab bar gets "home" whether focused or not, so it
      cannot be told apart from a focused home tab. */
  lemma UnknownRouteLooksLikeHome(route: string)
    requires route !in TabRoutes
    ensures TabBarIcon(route, false) == TabBarIcon(route, true) == TabBarIcon("Ana Sayfa", true)
  {
  }
}
