/** The application shell of js/app.js: the three-valued login flag, the
    route guard, the route table and the start-up sequence. The backend's
    session answers are parameters; rendering a view is modelled by the
    screen recording which view is shown. */
module App {
  import opened JsValues
  import opened HashRouter

  const HomePath := "/(tabs)/home"
  const LoginPath := "/logowanie"

  /** The views the application can show. */
  datatype View = Index | Logowanie | Rejestracja | OfflineView | NotFound | Home | NewEntry | History | Advice

  /** A registered route: a view that first asks the guard about its own
      path, or one shown unconditionally. */
  datatype Route = Guarded(path: string, view: View) | Plain(view: View)

  /** What the `#app` element shows. */
  datatype Screen = Blank | Loading | Showing(view: View)

  /** The guard's verdict for a path. */
  datatype Decision = ShowLoading | RedirectTo(target: string) | Allow

  /** `isPrivate(path)` */
  predicate IsPrivate(path: string) {
    StartsWith(path, "/(tabs)/")
  }

  /** The pages a signed-in user is sent away from. */
  predicate IsEntryPage(path: string) {
    path == "/" || path == LoginPath || path == "/rejestracja"
  }

  lemma EntryPagesPublic(path: string)
    ensures IsEntryPage(path) ==> !IsPrivate(path)
  {
    if path == LoginPath || path == "/rejestracja" {
      assert path[1] != "/(tabs)/"[1];
    }
  }

  /** What `guard(path)` decides under the login flag `isLoggedIn`
      (`None` while the session is still unknown). */
  function GuardDecision(isLoggedIn: Option<bool>, path: string): (d: Decision)
    ensures d == ShowLoading <==> isLoggedIn.None?
    ensures d == RedirectTo(LoginPath) <==> isLoggedIn == Some(false) && IsPrivate(path)
    ensures d == RedirectTo(HomePath) <==> isLoggedIn == Some(true) && IsEntryPage(path)
    ensures d.RedirectTo? ==> d.target == LoginPath || d.target == HomePath
  {
    EntryPagesPublic(path);
    if isLoggedIn.None? then ShowLoading
    else if IsPrivate(path) && !isLoggedIn.value then RedirectTo(LoginPath)
    else if !IsPrivate(path) && isLoggedIn.value && IsEntryPage(path) then RedirectTo(HomePath)
    else Allow
  }

  /** The paths `mountRoutes` registers. */
  const MountedPaths: set<string> := {
    "/", LoginPath, "/rejestracja", "/offline", "/404",
    HomePath, "/(tabs)/new", "/(tabs)/history", "/(tabs)/advice"
  }

  /** The table after `mountRoutes` registered its nine routes over
      `before`: every mounted route but `/404` guards its own path, and the
      routes registered earlier under other paths stay. */
  function Mount(before: map<string, Route>): (m: map<string, Route>)
    ensures forall p :: p in m <==> p in before || p in MountedPaths
    ensures forall p :: p in MountedPaths && p != "/404" ==> m[p].Guarded? && m[p].path == p
    ensures m["/404"] == Plain(NotFound)
    ensures forall p :: p in before && p !in MountedPaths ==> m[p] == before[p]
  {
    before
      ["/" := Guarded("/", Index)]
      [LoginPath := Guarded(LoginPath, Logowanie)]
      ["/rejestracja" := Guarded("/rejestracja", Rejestracja)]
      ["/offline" := Guarded("/offline", OfflineView)]
      ["/404" := Plain(NotFound)]
      [HomePath := Guarded(HomePath, Home)]
      ["/(tabs)/new" := Guarded("/(tabs)/new", NewEntry)]
      ["/(tabs)/history" := Guarded("/(tabs)/history", History)]
      ["/(tabs)/advice" := Guarded("/(tabs)/advice", Advice)]
  }

  /** No redirect loop: the guard only ever redirects to a mounted route
      that the guard then lets through under the same login state. */
  lemma NoRedirectLoop(isLoggedIn: Option<bool>, path: string, before: map<string, Route>)
    requires GuardDecision(isLoggedIn, path).RedirectTo?
    ensures var t := GuardDecision(isLoggedIn, path).target;
      t in Mount(before) && Mount(before)[t] == Guarded(t, Mount(before)[t].view)
      && GuardDecision(isLoggedIn, t) == Allow
  {
    var t := GuardDecision(isLoggedIn, path).target;
    if t == HomePath {
      assert StartsWith(HomePath, "/(tabs)/") by {
        assert HomePath[..8] == "/(tabs)/";
      }
    } else {
      assert !StartsWith(LoginPath, "/(tabs)/") by {
        assert LoginPath[1] != "/(tabs)/"[1];
      }
    }
  }

  /** `/offline` is shown whatever the (known) login state. */
  lemma OfflineAlwaysAllowed(isLoggedIn: bool)
    ensures GuardDecision(Some(isLoggedIn), "/offline") == Allow
  {
    assert "/offline"[1] != "/(tabs)/"[1];
  }

  /** The start-up check reads the fragment without normalising it:
      `(location.hash || "#/").slice(1)`. */
  function StartupPath(hash: string): (p: string)
    ensures hash == "" ==> p == "/"
    ensures forall q :: hash == "#" + q ==> p == q
  {
    var raw := if hash == "" then "#/" else hash;
    assert forall q :: hash == "#" + q ==> raw[1..] == q;
    raw[1..]
  }

  /** The fragment after `handle` ran once on `hash` under a known login
      state: a guarded route whose guard redirects moves it to the target. */
  function HashAfterHandle(isLoggedIn: bool, routes: map<string, Route>, hash: string): (h: string)
    ensures h == hash || h == "#" + LoginPath || h == "#" + HomePath
    ensures h != hash ==> Lookup(routes, PathFromHash(hash)).Some?
  {
    var found := Lookup(routes, PathFromHash(hash));
    if found.Some? && found.value.Guarded? && GuardDecision(Some(isLoggedIn), found.value.path).RedirectTo?
    then "#" + GuardDecision(Some(isLoggedIn), found.value.path).target
    else hash
  }

  /** The fragments start-up can move to name mounted routes that their own
      guard lets through: the login page for a signed-out user, home for a
      signed-in one. */
  lemma TargetShown(hasUser: bool, before: map<string, Route>, hash: string)
    requires hash == "#" + (if hasUser then HomePath else LoginPath)
    ensures var r := Lookup(Mount(before), PathFromHash(hash));
      r.Some? && r.value.Guarded? && GuardDecision(Some(hasUser), r.value.path) == Allow
  {
    var t := if hasUser then HomePath else LoginPath;
    assert StartsWith(t, "/") by { assert t[..1] == "/"; }
    assert PathFromHash(hash) == t;
    if hasUser {
      assert StartsWith(HomePath, "/(tabs)/") by { assert HomePath[..8] == "/(tabs)/"; }
    } else {
      assert !StartsWith(LoginPath, "/(tabs)/") by { assert LoginPath[1] != "/(tabs)/"[1]; }
    }
  }

  /** When the first `handle` leaves the mounted table's fragment where it
      was, the route it ran was shown: it is `/404` or its guard allowed it. */
  lemma HandledInPlace(hasUser: bool, before: map<string, Route>, hash: string)
    requires HashAfterHandle(hasUser, Mount(before), hash) == hash
    ensures var r := Lookup(Mount(before), PathFromHash(hash));
      r.Some? && (r.value.Guarded? ==> GuardDecision(Some(hasUser), r.value.path) == Allow)
  {
    var r := Lookup(Mount(before), PathFromHash(hash));
    if r.value.Guarded? && GuardDecision(Some(hasUser), r.value.path).RedirectTo? {
      TargetShown(hasUser, before, hash);
    }
  }

  class App {
    var isLoggedIn: Option<bool>
    var screen: Screen
    const router: Router<Route>

    /** The page as loaded: session unknown, nothing mounted, the URL's
        fragment `hash`. */
    constructor(hash: string)
      ensures isLoggedIn == None && screen == Blank
      ensures fresh(router) && router.routes == map[] && router.hash == hash
    {
      isLoggedIn := None;
      screen := Blank;
      router := new Router(hash);
    }

    /** `checkSession()`, given whether the backend's session has a user. */
    method CheckSession(hasUser: bool)
      modifies this
      ensures isLoggedIn == Some(hasUser) && screen == old(screen)
    {
      isLoggedIn := Some(hasUser);
    }

    /** `guard(path)`: true exactly when the decision allows rendering;
        otherwise it shows the loading placeholder or navigates once. */
    method Guard(path: string) returns (ok: bool)
      modifies this, router
      ensures ok <==> GuardDecision(isLoggedIn, path) == Allow
      ensures isLoggedIn == old(isLoggedIn) && router.routes == old(router.routes)
      ensures GuardDecision(isLoggedIn, path) == ShowLoading ==>
        screen == Loading && router.hash == old(router.hash)
      ensures GuardDecision(isLoggedIn, path).RedirectTo? ==>
        screen == old(screen) && router.hash == "#" + GuardDecision(isLoggedIn, path).target
      ensures GuardDecision(isLoggedIn, path) == Allow ==>
        screen == old(screen) && router.hash == old(router.hash)
    {
      var d := GuardDecision(isLoggedIn, path);
      match d
      case ShowLoading =>
        screen := Loading;
        ok := false;
      case RedirectTo(target) =>
        router.Navigate(target);
        assert NormalizePath(target) == target by {
          assert target == LoginPath || target == HomePath;
          assert target[..1] == "/";
        }
        ok := false;
      case Allow =>
        ok := true;
    }

    /** Running a mounted route: a guarded view is shown only when the
        guard on its own path allowed it. */
    method RunRoute(route: Route)
      modifies this, router
      ensures isLoggedIn == old(isLoggedIn) && router.routes == old(router.routes)
      ensures route.Plain? ==> screen == Showing(route.view) && router.hash == old(router.hash)
      ensures route.Guarded? && GuardDecision(isLoggedIn, route.path) == Allow ==>
        screen == Showing(route.view) && router.hash == old(router.hash)
      ensures route.Guarded? && GuardDecision(isLoggedIn, route.path) == ShowLoading ==>
        screen == Loading && router.hash == old(router.hash)
      ensures route.Guarded? && GuardDecision(isLoggedIn, route.path).RedirectTo? ==>
        screen == old(screen) && router.hash == "#" + GuardDecision(isLoggedIn, route.path).target
    {
      match route
      case Plain(view) =>
        screen := Showing(view);
      case Guarded(path, view) =>
        var ok := Guard(path);
        if ok {
          screen := Showing(view);
        }
    }

    /** `mountRoutes()`: the nine registrations, added over whatever was
        registered before. */
    method MountRoutes()
      modifies router
      ensures router.routes == Mount(old(router.routes)) && router.hash == old(router.hash)
    {
      router.RegisterRoute("/", Guarded("/", Index));
      router.RegisterRoute(LoginPath, Guarded(LoginPath, Logowanie));
      router.RegisterRoute("/rejestracja", Guarded("/rejestracja", Rejestracja));
      router.RegisterRoute("/offline", Guarded("/offline", OfflineView));
      router.RegisterRoute("/404", Plain(NotFound));
      router.RegisterRoute(HomePath, Guarded(HomePath, Home));
      router.RegisterRoute("/(tabs)/new", Guarded("/(tabs)/new", NewEntry));
      router.RegisterRoute("/(tabs)/history", Guarded("/(tabs)/history", History));
      router.RegisterRoute("/(tabs)/advice", Guarded("/(tabs)/advice", Advice));
    }

    /** The router's `handle` on the current fragment: the route found for
        it runs, and nothing happens when there is none. */
    method HandleHash()
      modifies this, router
      ensures isLoggedIn == old(isLoggedIn) && router.routes == old(router.routes)
      ensures var found := Lookup(old(router.routes), PathFromHash(old(router.hash)));
        && (found.None? ==> screen == old(screen) && router.hash == old(router.hash))
        && (found.Some? && found.value.Plain? ==>
              screen == Showing(found.value.view) && router.hash == old(router.hash))
        && (found.Some? && found.value.Guarded? && GuardDecision(isLoggedIn, found.value.path) == Allow ==>
              screen == Showing(found.value.view) && router.hash == old(router.hash))
        && (found.Some? && found.value.Guarded? && GuardDecision(isLoggedIn, found.value.path) == ShowLoading ==>
              screen == Loading && router.hash == old(router.hash))
        && (found.Some? && found.value.Guarded? && GuardDecision(isLoggedIn, found.value.path).RedirectTo? ==>
              screen == old(screen) && router.hash == "#" + GuardDecision(isLoggedIn, found.value.path).target)
    {
      var route := router.Handle();
      if route.Some? {
        RunRoute(route.value);
      }
    }

    /** The auth-change listener: record whether the new session has a
        user, then go home or to the login page. */
    method OnAuthChange(hasUser: bool)
      modifies this, router
      ensures isLoggedIn == Some(hasUser) && screen == old(screen) && router.routes == old(router.routes)
      ensures router.hash == "#" + (if hasUser then HomePath else LoginPath)
    {
      isLoggedIn := Some(hasUser);
      if hasUser {
        router.Navigate(HomePath);
      } else {
        router.Navigate(LoginPath);
      }
    }

    /** The check after the first render: a signed-in user whose fragment
        names an entry page is sent home. */
    method StartupRedirect()
      modifies router
      ensures router.routes == old(router.routes)
      ensures isLoggedIn == Some(true) && IsEntryPage(StartupPath(old(router.hash))) ==>
        router.hash == "#" + HomePath
      ensures !(isLoggedIn == Some(true) && IsEntryPage(StartupPath(old(router.hash)))) ==>
        router.hash == old(router.hash)
    {
      var path := StartupPath(router.hash);
      if isLoggedIn == Some(true) && IsEntryPage(path) {
        router.Navigate(HomePath);
      }
    }

    /** `main()`, given whether the session has a user: show the loading
        placeholder, learn the session, mount the routes, handle the
        current fragment, then apply the start-up redirect. When the
        fragment has changed by then, the `hashchange` listener that
        `initRouter` installed handles the new one. The session is known
        before the first route runs, so the placeholder never stays up:
        the page ends showing the view its final fragment maps to, and
        the guard lets that view through. */
    method Start(hasUser: bool)
      modifies this, router
      ensures isLoggedIn == Some(hasUser)
      ensures router.routes == Mount(old(router.routes))
      ensures var handled := HashAfterHandle(hasUser, router.routes, old(router.hash));
        router.hash == if hasUser && IsEntryPage(StartupPath(handled)) then "#" + HomePath else handled
      ensures var r := Lookup(router.routes, PathFromHash(router.hash));
        && r.Some? && screen == Showing(r.value.view)
        && (r.value.Guarded? ==> GuardDecision(isLoggedIn, r.value.path) == Allow)
    {
      screen := Loading;
      CheckSession(hasUser);
      MountRoutes();
      var before := router.hash;
      HandleHash();
      StartupRedirect();
      if router.hash != before {
        TargetShown(hasUser, old(router.routes), router.hash);
        HandleHash();
      } else {
        HandledInPlace(hasUser, old(router.routes), before);
      }
    }

    /** The logout button: after signing out it navigates to `/`; the login
        flag changes only when the auth-change listener hears of it. */
    method Logout()
      modifies router
      ensures router.hash == "#/" && router.routes == old(router.routes)
    {
      router.Navigate("/");
    }
  }
}
