/**
 * The application shell: the loading gate, the redirect of signed-out users,
 * the trigger for the admin check, and the tables that decide which pages
 * are preloaded after a navigation.
 */
module Routes {
  import opened Options
  import opened Text

  datatype Page = Home | Login | Chat | Groups | AdminLogin | Dashboard | UserManagement | ChatManagement
                | MessageManagement

  /** `preloadRoute`'s table of lazily loaded pages. */
  const Components: map<string, Page> := map[
    "/" := Home, "/login" := Login, "/chat" := Chat, "/groups" := Groups, "/admin" := AdminLogin,
    "/admin/dashboard" := Dashboard, "/admin/users" := UserManagement, "/admin/chats" := ChatManagement,
    "/admin/messages" := MessageManagement]

  /** The routes likely to be visited next from a path. */
  const NextRoutes: map<string, seq<string>> := map[
    "/" := ["/chat", "/groups"], "/login" := ["/"], "/chat" := ["/groups", "/"], "/groups" := ["/chat", "/"],
    "/admin" := ["/admin/dashboard"], "/admin/dashboard" := ["/admin/users", "/admin/chats"]]

  /** `preloadRoute(route)`: the page it preloads; a route missing from the table preloads nothing. */
  function PreloadRoute(route: string): (r: Option<Page>)
    ensures r.None? <==> route !in Components
    ensures r.Some? ==> r.value == Components[route]
  {
    if route in Components then Some(Components[route]) else None
  }

  function PreloadAll(routes: seq<string>): (r: seq<Page>)
    ensures |r| <= |routes|
  {
    if routes == [] then []
    else match PreloadRoute(routes[0])
      case Some(p) => [p] + PreloadAll(routes[1..])
      case None => PreloadAll(routes[1..])
  }

  /** The pages preloaded on arriving at a path, in the table's order. */
  function Preloaded(path: string): (r: seq<Page>)
    ensures path !in NextRoutes ==> r == []
  {
    if path in NextRoutes then PreloadAll(NextRoutes[path]) else []
  }

  /** Every route the preload table names is in the component table, so each listed route is preloaded. */
  lemma {:induction false} PreloadAllComplete(routes: seq<string>)
    requires forall i :: 0 <= i < |routes| ==> routes[i] in Components
    ensures PreloadAll(routes) == seq(|routes|, i requires 0 <= i < |routes| => Components[routes[i]])
  {
    if routes != [] {
      PreloadAllComplete(routes[1..]);
    }
  }

  lemma PreloadTables()
    ensures Preloaded("/") == [Chat, Groups]
    ensures Preloaded("/login") == [Home]
    ensures Preloaded("/admin/dashboard") == [UserManagement, ChatManagement]
  {
    PreloadAllComplete(NextRoutes["/"]);
    PreloadAllComplete(NextRoutes["/login"]);
    PreloadAllComplete(NextRoutes["/admin/dashboard"]);
  }

  /** A chat is opened at "/chat/<id>", which neither table lists: opening a chat preloads nothing. */
  lemma ChatPagesPreloadNothing(id: string)
    ensures Preloaded("/chat/" + id) == []
  {
    var path := "/chat/" + id;
    assert |path| >= 6 && path[1] == 'c' && path[5] == '/';
    assert NextRoutes.Keys == {"/", "/login", "/chat", "/groups", "/admin", "/admin/dashboard"};
    assert path !in NextRoutes;
  }

  /** The admin check is requested for paths under "/admin" other than "/admin" itself. */
  function TriggersAdminCheck(path: string): (r: bool)
    ensures r <==> StartsWith(path, "/admin") && path != "/admin"
  {
    StartsWith(path, "/admin") && path != "/admin"
  }

  /** The test is a prefix test, not a path-segment test. */
  lemma AdminCheckIsPrefixTest()
    ensures TriggersAdminCheck("/admin/users")
    ensures TriggersAdminCheck("/administrator")
    ensures !TriggersAdminCheck("/admin")
    ensures !TriggersAdminCheck("/chat")
  {
  }

  datatype Screen = LoaderScreen | RedirectToLogin | RouteTable(path: string)

  /** What the shell renders: the loader while loading, the login redirect for a signed-out user, the routes otherwise. */
  function Render(isLoading: bool, signedIn: bool, path: string): (r: Screen)
    ensures isLoading <==> r == LoaderScreen
    ensures r == RedirectToLogin <==> !isLoading && !signedIn && path != "/login" && !StartsWith(path, "/admin")
    ensures r.RouteTable? ==> r.path == path
  {
    if isLoading then LoaderScreen
    else if !signedIn && path != "/login" && !StartsWith(path, "/admin") then RedirectToLogin
    else RouteTable(path)
  }

  /** A signed-out user reaches the login page and every admin page; everything else redirects. */
  lemma SignedOutReach(path: string)
    ensures Render(false, false, "/login") == RouteTable("/login")
    ensures StartsWith(path, "/admin") ==> Render(false, false, path) == RouteTable(path)
    ensures Render(false, false, "/") == RedirectToLogin
  {
    assert !StartsWith("/", "/admin");
  }

  /** The shell's readiness state. */
  class Shell {
    var isAppReady: bool
    var isLoading: bool

    /** The loader is down only after the auth check has finished. */
    predicate Valid()
      reads this
    {
      !isLoading ==> isAppReady
    }

    constructor()
      ensures Valid() && !isAppReady && isLoading
    {
      isAppReady := false;
      isLoading := true;
    }

    /** `checkAuth`'s `finally`: the app is ready whether or not the user was found. */
    method AuthCheckFinished()
      requires Valid()
      modifies this
      ensures Valid() && isAppReady && isLoading == old(isLoading)
    {
      isAppReady := true;
    }

    /** The loading effect: the loader goes down once the app is ready and the store's loader flag is false. */
    method LoadingEffect(loader: bool)
      requires Valid()
      modifies this
      ensures Valid() && isAppReady == old(isAppReady)
      ensures isLoading == (old(isLoading) && !(old(isAppReady) && !loader))
    {
      if isAppReady && !loader {
        isLoading := false;
      }
    }
  }
}
