/** Route resolution: the application's route table, the guard wrapped
    around the protected pages, and the view a path resolves to. */
module Routing {
  import opened Common
  import opened Session

  datatype Page =
    | Index | Login | Signup
    | Dashboard | Chatbot | Expenses | Investments | Learning | Community
    | Emergency | Help | Settings
    | NotFound

  /** One `<Route>`: its path, the page it shows, and whether it sits
      under the protected-route guard. */
  datatype Route = Route(path: string, page: Page, guarded: bool)

  /** The routes declared under the layout, in declaration order. The
      catch-all is not in the table: it is what an unmatched path gets. */
  const RouteTable: seq<Route> := [
    Route("/", Index, false),
    Route("/login", Login, false),
    Route("/signup", Signup, false),
    Route("/dashboard", Dashboard, true),
    Route("/chatbot", Chatbot, true),
    Route("/expenses", Expenses, true),
    Route("/investments", Investments, true),
    Route("/learning", Learning, true),
    Route("/community", Community, true),
    Route("/emergency", Emergency, true),
    Route("/help", Help, true),
    Route("/settings", Settings, true)]

  /** What the user sees. */
  datatype View =
    | Spinner
    | Redirect(to: string, from: string, replace: bool)
    | Render(page: Page)

  /** The first route of `routes` declared for `path`, if any. */
  function Lookup(routes: seq<Route>, path: string): (r: Option<Route>)
    ensures r.Some? ==> r.value in routes && r.value.path == path
    ensures r.None? ==> forall i :: 0 <= i < |routes| ==> routes[i].path != path
  {
    if |routes| == 0 then None
    else if routes[0].path == path then Some(routes[0])
    else Lookup(routes[1..], path)
  }

  /** The protected-route guard: loading wins, then anonymous visitors
      are sent to the login page (replacing the history entry and
      remembering where they were going), else the page renders. */
  function Guard(isLoading: bool, isAuthenticated: bool, location: string, page: Page): (v: View)
    ensures v == Spinner <==> isLoading
    ensures v.Redirect? <==> !isLoading && !isAuthenticated
    ensures v.Render? <==> !isLoading && isAuthenticated
    ensures v.Redirect? ==> v == Redirect("/login", location, true)
    ensures v.Render? ==> v.page == page
  {
    if isLoading then Spinner
    else if !isAuthenticated then Redirect("/login", location, true)
    else Render(page)
  }

  /** The view for `path` given the session. */
  function Resolve(path: string, a: AuthState): View
  {
    match Lookup(RouteTable, path)
    case None => Render(NotFound)
    case Some(route) =>
      if route.guarded then Guard(a.isLoading, IsAuthenticated(a), path, route.page)
      else Render(route.page)
  }

  /** The route declared for each path of the table. */
  lemma LookupDeclared(i: nat)
    requires i < |RouteTable|
    ensures Lookup(RouteTable, RouteTable[i].path) == Some(RouteTable[i])
  {
    assert forall j, k :: 0 <= j < k < |RouteTable| ==> RouteTable[j].path != RouteTable[k].path by {
      forall j, k | 0 <= j < k < |RouteTable|
        ensures RouteTable[j].path != RouteTable[k].path
      {
        PathsDiffer(j, k);
      }
    }
    LookupUnique(RouteTable, i);
  }

  lemma PathsDiffer(j: nat, k: nat)
    requires j < k < |RouteTable|
    ensures RouteTable[j].path != RouteTable[k].path
  {
    if j == 0 {
      assert |RouteTable[j].path| == 1 < |RouteTable[k].path|;
    } else if |RouteTable[j].path| == |RouteTable[k].path| {
      assert RouteTable[j].path[1] != RouteTable[k].path[1] || RouteTable[j].path[2] != RouteTable[k].path[2];
    }
  }

  /** Lookup in a table whose paths are distinct finds the one route
      declared for the path. */
  lemma {:induction false} LookupUnique(routes: seq<Route>, i: nat)
    requires i < |routes|
    requires forall j, k :: 0 <= j < k < |routes| ==> routes[j].path != routes[k].path
    ensures Lookup(routes, routes[i].path) == Some(routes[i])
  {
    if i > 0 {
      assert routes[0].path != routes[i].path;
      LookupUnique(routes[1..], i - 1);
    }
  }

  /** A declared path resolves through the guard exactly when it is one
      of the nine protected paths (the table's last nine rows, after "/",
      "/login" and "/signup"), and
      renders its page directly otherwise. */
  lemma ResolveDeclared(i: nat, a: AuthState)
    requires i < |RouteTable|
    ensures RouteTable[i].guarded <==> i >= 3
    ensures RouteTable[i].guarded ==>
      Resolve(RouteTable[i].path, a) == Guard(a.isLoading, IsAuthenticated(a), RouteTable[i].path, RouteTable[i].page)
    ensures !RouteTable[i].guarded ==> Resolve(RouteTable[i].path, a) == Render(RouteTable[i].page)
  {
    LookupDeclared(i);
  }

  /** A path that no route declares renders the not-found page, whatever
      the session. */
  lemma ResolveUnknown(path: string, a: AuthState)
    requires forall i :: 0 <= i < |RouteTable| ==> RouteTable[i].path != path
    ensures Resolve(path, a) == Render(NotFound)
  {
  }

  /** An anonymous visitor asking for the dashboard is sent to the login
      page, remembering the dashboard; a signed-in one sees it; anyone at
      /payments sees the not-found page. */
  lemma DashboardScenarios(a: AuthState)
    requires !a.isLoading
    ensures !IsAuthenticated(a) ==> Resolve("/dashboard", a) == Redirect("/login", "/dashboard", true)
    ensures IsAuthenticated(a) ==> Resolve("/dashboard", a) == Render(Dashboard)
    ensures Resolve("/payments", a) == Render(NotFound)
  {
    ResolveDeclared(3, a);
    PaymentsUndeclared();
    ResolveUnknown("/payments", a);
  }

  lemma PaymentsUndeclared()
    ensures forall i :: 0 <= i < |RouteTable| ==> RouteTable[i].path != "/payments"
  {
    forall i | 0 <= i < |RouteTable|
      ensures RouteTable[i].path != "/payments"
    {
      if i == 0 {
        assert |RouteTable[i].path| == 1;
      } else {
        assert RouteTable[i].path[1] != 'p' || RouteTable[i].path[2] != 'a';
      }
    }
  }
}
