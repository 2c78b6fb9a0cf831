/** The browser router: the literal route table handed to `createBrowserRouter`, how a
    concrete location is matched against its path patterns, and what a session ends
    up seeing once the protected entries go through the guard. */
module Router {
  import opened Http
  import opened ProtectedRoute

  /** The page components the entry module imports (plus the inline About heading). */
  datatype Page =
    | App | About | BookDetail | Payment | Cart | Login | Register
    | Dashboard | BookManagement | AccountManagement | CategoryManagement

  /** A route's element: the page itself, or the page wrapped in `ProtectedRoute`. */
  datatype Element = Plain(page: Page) | Protected(page: Page)

  /** A route, its path pattern kept as the pieces between its slashes (the form the
      router matches in); `Path` gives the pattern as written. */
  datatype Route = Route(pattern: seq<string>, element: Element)

  /** The route table, in declaration order. */
  const Routes: seq<Route> := [
    Route(["", ""], Plain(App)),
    Route(["", "about"], Plain(About)),
    Route(["", "book", ":id"], Plain(BookDetail)),
    Route(["", "payment"], Plain(Payment)),
    Route(["", "cart"], Plain(Cart)),
    Route(["", "login"], Plain(Login)),
    Route(["", "register"], Plain(Register)),
    Route(["", "admin"], Protected(Dashboard)),
    Route(["", "admin", "book-management"], Protected(BookManagement)),
    Route(["", "admin", "account-management"], Protected(AccountManagement))
  ]

  const AdminPaths: set<string> := {"/admin", "/admin/book-management", "/admin/account-management"}
  const PublicPaths: set<string> := {"/", "/about", "/book/:id", "/payment", "/cart", "/login", "/register"}
  const AdminPages: set<Page> := {Dashboard, BookManagement, AccountManagement}

  // ---------------------------------------------------------------------------
  // Path segments

  /** `s.split("/")`: the pieces between slashes, empty pieces included. */
  function Split(s: string): (r: seq<string>)
    ensures |r| >= 1
    ensures forall i :: 0 <= i < |r| ==> '/' !in r[i]
  {
    if s == [] then [""]
    else
      var rest := Split(s[1..]);
      if s[0] == '/' then [""] + rest
      else [[s[0]] + rest[0]] + rest[1..]
  }

  /** `segs.join("/")`. */
  function Join(segs: seq<string>): string
  {
    if |segs| == 0 then ""
    else if |segs| == 1 then segs[0]
    else segs[0] + "/" + Join(segs[1..])
  }

  /** A route's path as written in the table. */
  function Path(r: Route): string {
    Join(r.pattern)
  }

  /** Splitting loses nothing: joining the pieces gives the path back. */
  lemma {:induction false} JoinSplit(s: string)
    ensures Join(Split(s)) == s
  {
    if s != [] {
      var rest := Split(s[1..]);
      JoinSplit(s[1..]);
      if s[0] == '/' {
        assert Split(s) == [""] + rest;
        assert Split(s)[1..] == rest;
      } else {
        assert Split(s) == [[s[0]] + rest[0]] + rest[1..];
        if |rest| == 1 {
          assert Join(Split(s)) == [s[0]] + rest[0];
        } else {
          assert Split(s)[1..] == rest[1..];
          assert Join(rest) == rest[0] + "/" + Join(rest[1..]);
        }
        assert s == [s[0]] + s[1..];
      }
    }
  }

  /** Splitting a slash-free word followed by `tail` glues the word to the tail's first piece. */
  lemma {:induction false} SplitWord(w: string, tail: string)
    requires '/' !in w
    ensures Split(w + tail) == [w + Split(tail)[0]] + Split(tail)[1..]
  {
    if w != [] {
      var t, r := Split(tail), Split(w[1..] + tail);
      assert (w + tail)[1..] == w[1..] + tail;
      assert (w + tail)[0] == w[0] && w[0] in w;
      SplitWord(w[1..], tail);
      assert Split(w + tail) == [[w[0]] + r[0]] + r[1..];
      assert r[1..] == t[1..];
      assert [w[0]] + (w[1..] + t[0]) == w + t[0];
    } else {
      assert w + tail == tail;
      assert Split(tail) == [Split(tail)[0]] + Split(tail)[1..];
      assert w + Split(tail)[0] == Split(tail)[0];
    }
  }

  /** Joining slash-free pieces and splitting again gives the pieces back. */
  lemma {:induction false} SplitJoin(segs: seq<string>)
    requires |segs| >= 1
    requires forall i :: 0 <= i < |segs| ==> '/' !in segs[i]
    ensures Split(Join(segs)) == segs
  {
    if |segs| == 1 {
      SplitWord(segs[0], "");
      assert segs[0] + "" == segs[0];
    } else {
      var tail := "/" + Join(segs[1..]);
      SplitJoin(segs[1..]);
      assert tail[1..] == Join(segs[1..]);
      assert Split(tail) == [""] + segs[1..];
      assert Join(segs) == segs[0] + tail;
      SplitWord(segs[0], tail);
      assert segs[0] + "" == segs[0];
    }
  }

  // ---------------------------------------------------------------------------
  // Matching

  /** A `:name` piece matches any non-empty piece; any other piece only itself. */
  predicate SegmentMatches(pattern: string, segment: string) {
    if |pattern| > 0 && pattern[0] == ':' then segment != "" else pattern == segment
  }

  /** Piece-by-piece matching of a split location against a pattern. */
  predicate PiecesMatch(pattern: seq<string>, us: seq<string>) {
    |pattern| == |us| && forall i :: 0 <= i < |us| ==> SegmentMatches(pattern[i], us[i])
  }

  /** A pattern without `:name` pieces, whose pieces hold no slash. */
  predicate Literal(pattern: seq<string>) {
    |pattern| >= 1 &&
    forall k :: 0 <= k < |pattern| ==> '/' !in pattern[k] && (pattern[k] == [] || pattern[k][0] != ':')
  }

  /** Whether a location matches a pattern: as many pieces, each matching its own. */
  predicate Matches(pattern: seq<string>, url: string)
    ensures Matches(pattern, url) ==> |Split(url)| == |pattern|
  {
    PiecesMatch(pattern, Split(url))
  }

  /** A literal pattern matches exactly its own path. */
  lemma MatchesLiteral(pattern: seq<string>, url: string)
    requires Literal(pattern)
    ensures Matches(pattern, url) <==> url == Join(pattern)
  {
    var us := Split(url);
    if Matches(pattern, url) {
      assert us == pattern;
      JoinSplit(url);
    }
    if url == Join(pattern) {
      SplitJoin(pattern);
    }
  }

  /** The position of a route matching `url`, the first one if several do. */
  function FindRoute(routes: seq<Route>, url: string): (r: Option<nat>)
    ensures r.Some? ==> r.value < |routes| && Matches(routes[r.value].pattern, url)
    ensures r.Some? ==> forall j :: 0 <= j < r.value ==> !Matches(routes[j].pattern, url)
    ensures r.None? ==> forall j :: 0 <= j < |routes| ==> !Matches(routes[j].pattern, url)
  {
    if routes == [] then None
    else if Matches(routes[0].pattern, url) then Some(0)
    else match FindRoute(routes[1..], url)
      case None => None
      case Some(j) => Some(j + 1)
  }

  /** What a location shows for a session; `Failed` is the guard's render error. */
  datatype View = NotFound | Shown(page: Page) | Redirected(to: string, replace: bool) | Failed

  /** The router's answer for a location: the matched entry's page, through the guard
      when the entry is wrapped in it. */
  function Resolve(url: string, authenticated: bool, user: Option<User>): (v: View)
    ensures v == NotFound <==> FindRoute(Routes, url).None?
    ensures v.Redirected? || v.Failed? ==>
      FindRoute(Routes, url).Some? && Routes[FindRoute(Routes, url).value].element.Protected?
    ensures v.Redirected? ==> v == Redirected(if authenticated then "/" else "/login", true)
    ensures v.Failed? ==> authenticated && user.None?
    ensures v.Shown? ==>
      (FindRoute(Routes, url).Some? &&
       var e := Routes[FindRoute(Routes, url).value].element;
       v.page == e.page && (e.Protected? ==> authenticated && user.Some? && user.value.role == AdminRole))
  {
    match FindRoute(Routes, url)
    case None => NotFound
    case Some(i) =>
      match Routes[i].element
      case Plain(p) => Shown(p)
      case Protected(p) =>
        match Guard(authenticated, user)
        case Render => Shown(p)
        case Navigate(to, replace) => Redirected(to, replace)
        case Throw => Failed
  }

  // ---------------------------------------------------------------------------
  // Properties of the table

  /** The two paths the guard redirects to. */
  lemma RedirectTargetPaths()
    ensures Path(Routes[0]) == "/" && Path(Routes[5]) == "/login"
  {
  }

  lemma ShopPaths()
    ensures Path(Routes[1]) == "/about" && Path(Routes[2]) == "/book/:id"
    ensures Path(Routes[3]) == "/payment" && Path(Routes[4]) == "/cart"
  {
  }

  /** The paths of the unguarded entries as written, in order. */
  lemma PublicRoutePaths()
    ensures |Routes| == 10
    ensures Path(Routes[0]) == "/" && Path(Routes[1]) == "/about"
    ensures Path(Routes[2]) == "/book/:id" && Path(Routes[3]) == "/payment"
    ensures Path(Routes[4]) == "/cart" && Path(Routes[5]) == "/login"
    ensures Path(Routes[6]) == "/register"
  {
    RedirectTargetPaths();
    ShopPaths();
  }

  lemma DashboardPath()
    ensures Path(Routes[7]) == "/admin"
  {
  }

  lemma BookManagementPath()
    ensures Path(Routes[8]) == "/admin/book-management"
  {
  }

  lemma AccountManagementPath()
    ensures Path(Routes[9]) == "/admin/account-management"
  {
  }

  /** The paths of the guarded entries as written. */
  lemma AdminRoutePaths()
    ensures |Routes| == 10
    ensures Path(Routes[7]) == "/admin"
    ensures Path(Routes[8]) == "/admin/book-management"
    ensures Path(Routes[9]) == "/admin/account-management"
  {
    DashboardPath();
    BookManagementPath();
    AccountManagementPath();
  }

  /** Every piece of every pattern is free of slashes, so each pattern is the split of
      its own path. */
  lemma PatternOfPath(i: nat)
    requires i < |Routes|
    ensures Split(Path(Routes[i])) == Routes[i].pattern
  {
    var segs := Routes[i].pattern;
    assert forall k :: 0 <= k < |segs| ==> '/' !in segs[k];
    SplitJoin(segs);
  }

  /** Different lists of slash-free pieces join to different paths. */
  lemma JoinInjective(a: seq<string>, b: seq<string>)
    requires |a| >= 1 && |b| >= 1 && a != b
    requires forall k :: 0 <= k < |a| ==> '/' !in a[k]
    requires forall k :: 0 <= k < |b| ==> '/' !in b[k]
    ensures Join(a) != Join(b)
  {
    SplitJoin(a);
    SplitJoin(b);
  }

  /** No two entries of the table share a path. */
  lemma PathsDistinct(i: nat, j: nat)
    requires i < j < |Routes|
    ensures Path(Routes[i]) != Path(Routes[j])
  {
    var a, b := Routes[i].pattern, Routes[j].pattern;
    assert a != b;
    assert forall k :: 0 <= k < |a| ==> '/' !in a[k];
    assert forall k :: 0 <= k < |b| ==> '/' !in b[k];
    JoinInjective(a, b);
  }

  /** Exactly the three admin paths are wrapped in the guard; the other seven are not. */
  lemma GuardedRoutes()
    ensures forall i :: 0 <= i < |Routes| ==>
      (Routes[i].element.Protected? <==> Path(Routes[i]) in AdminPaths)
    ensures forall i :: 0 <= i < |Routes| ==>
      (Routes[i].element.Plain? <==> Path(Routes[i]) in PublicPaths)
    ensures forall i :: 0 <= i < |Routes| ==>
      (Routes[i].element.page in AdminPages <==> Routes[i].element.Protected?)
  {
    PublicRoutePaths();
    AdminRoutePaths();
  }

  /** Two entries of the table never match the same location, so which one the router
      picks does not depend on its ranking. */
  lemma AtMostOneMatch(url: string, i: nat, j: nat)
    requires i < |Routes| && j < |Routes|
    requires Matches(Routes[i].pattern, url) && Matches(Routes[j].pattern, url)
    ensures i == j
  {
    var us := Split(url);
    assert SegmentMatches(Routes[i].pattern[1], us[1]);
    assert SegmentMatches(Routes[j].pattern[1], us[1]);
    if |us| == 3 {
      assert SegmentMatches(Routes[i].pattern[2], us[2]);
      assert SegmentMatches(Routes[j].pattern[2], us[2]);
    }
  }

  /** A location matching an entry resolves through that entry. */
  lemma FindsMatchingRoute(url: string, i: nat)
    requires i < |Routes| && Matches(Routes[i].pattern, url)
    ensures FindRoute(Routes, url) == Some(i)
  {
    var r := FindRoute(Routes, url);
    AtMostOneMatch(url, i, r.value);
  }

  /** Visiting a table path literally reaches its own entry. */
  lemma PathReachesOwnRoute(i: nat)
    requires i < |Routes|
    ensures Matches(Routes[i].pattern, Path(Routes[i]))
    ensures FindRoute(Routes, Path(Routes[i])) == Some(i)
  {
    PatternOfPath(i);
    var ps := Routes[i].pattern;
    assert forall k :: 0 <= k < |ps| ==> SegmentMatches(ps[k], ps[k]);
    FindsMatchingRoute(Path(Routes[i]), i);
  }

  /** `/book/:id` matches exactly `/book/` followed by one non-empty piece. */
  lemma BookDetailPattern(url: string)
    ensures Matches(Routes[2].pattern, url) <==> |url| > 6 && url[..6] == "/book/" && '/' !in url[6..]
  {
    var us := Split(url);
    if Matches(Routes[2].pattern, url) {
      JoinSplit(url);
      assert SegmentMatches("", us[0]) && SegmentMatches("book", us[1]);
      assert us[1..] == [us[1], us[2]] && us[2..] == [us[2]];
      assert Join(us[1..]) == "book" + "/" + us[2];
      assert url == "/book/" + us[2];
    }
    if |url| > 6 && url[..6] == "/book/" && '/' !in url[6..] {
      var id := url[6..];
      assert url == url[..6] + id;
      assert Join(["book", id]) == "book/" + id;
      assert url == Join(["", "book", id]);
      SplitJoin(["", "book", id]);
    }
  }

  // ---------------------------------------------------------------------------
  // What a session can reach

  /** A location matching an unguarded entry shows its page to every session. */
  lemma PublicForEveryone(url: string, i: nat, authenticated: bool, user: Option<User>)
    requires i < |Routes| && Routes[i].element.Plain? && Matches(Routes[i].pattern, url)
    ensures Resolve(url, authenticated, user) == Shown(Routes[i].element.page)
  {
    FindsMatchingRoute(url, i);
  }

  /** Each admin path is the path of a guarded entry. */
  lemma AdminEntry(url: string) returns (i: nat)
    requires url in AdminPaths
    ensures i < |Routes| && Path(Routes[i]) == url && Routes[i].element.Protected?
  {
    AdminRoutePaths();
    i := if url == "/admin" then 7 else if url == "/admin/book-management" then 8 else 9;
  }

  /** Visiting a guarded entry's own path gives what the guard decides. */
  lemma GuardedEntry(i: nat, authenticated: bool, user: Option<User>)
    requires i < |Routes| && Routes[i].element.Protected?
    ensures Resolve(Path(Routes[i]), authenticated, user) ==
      match Guard(authenticated, user)
      case Render => Shown(Routes[i].element.page)
      case Navigate(to, replace) => Redirected(to, replace)
      case Throw => Failed
  {
    PathReachesOwnRoute(i);
  }

  /** Signed out, each of the three admin paths redirects to `/login`, whatever user
      the context still holds. */
  lemma SignedOutAdminToLogin(url: string, user: Option<User>)
    requires url in AdminPaths
    ensures Resolve(url, false, user) == Redirected("/login", true)
  {
    var i := AdminEntry(url);
    GuardedEntry(i, false, user);
  }

  /** Signed in but with no user in the context, each admin path fails to render, while
      unguarded locations still show their pages (`PublicForEveryone`). */
  lemma SignedInWithoutUserFails(url: string)
    requires url in AdminPaths
    ensures Resolve(url, true, None) == Failed
  {
    var i := AdminEntry(url);
    GuardedEntry(i, true, None);
  }

  /** Signed in without the admin role, each admin path redirects to `/`. */
  lemma NonAdminAdminToHome(url: string, role: string)
    requires url in AdminPaths && role != AdminRole
    ensures Resolve(url, true, Some(User(role))) == Redirected("/", true)
  {
    var i := AdminEntry(url);
    GuardedEntry(i, true, Some(User(role)));
  }

  /** Without an admin session no location shows an admin page: it shows an unguarded
      page, is not found, redirects (to `/login` when signed out, to `/` otherwise), or
      fails because the signed-in context holds no user. */
  lemma OnlyAdminsSeeAdminPages(url: string, authenticated: bool, user: Option<User>)
    requires !(authenticated && user.Some? && user.value.role == AdminRole)
    ensures var v := Resolve(url, authenticated, user);
      (v.Shown? ==> v.page !in AdminPages) &&
      (v.Redirected? ==> v == Redirected(if authenticated then "/" else "/login", true)) &&
      (v.Failed? ==> authenticated && user.None?)
  {
    assert forall i :: 0 <= i < |Routes| ==>
      (Routes[i].element.page in AdminPages <==> Routes[i].element.Protected?);
  }

  /** An admin session is never redirected and never fails, and each table path shows
      its own page. */
  lemma AdminSeesEverything(url: string, i: nat, user: User)
    requires user.role == AdminRole && i < |Routes|
    ensures !Resolve(url, true, Some(user)).Redirected? && !Resolve(url, true, Some(user)).Failed?
    ensures Resolve(Path(Routes[i]), true, Some(user)) == Shown(Routes[i].element.page)
  {
    assert Guard(true, Some(user)) == Render;
    PathReachesOwnRoute(i);
  }

  /** The category screen is imported but no entry renders it, so no session ever sees it. */
  lemma CategoryManagementUnreachable(url: string, authenticated: bool, user: Option<User>)
    ensures Resolve(url, authenticated, user) != Shown(CategoryManagement)
  {
    assert forall i :: 0 <= i < |Routes| ==> Routes[i].element.page != CategoryManagement;
  }

  /** Both redirect targets are unguarded entries, so a redirect ends after one hop:
      for any later session `/login` shows the login page and `/` the home page. */
  lemma RedirectsLand(url: string, authenticated: bool, user: Option<User>,
                      later: bool, laterUser: Option<User>)
    ensures Resolve(url, authenticated, user).Redirected? ==>
      Resolve(Resolve(url, authenticated, user).to, later, laterUser)
        == Shown(if authenticated then App else Login)
  {
    if Resolve(url, authenticated, user).Redirected? {
      RedirectTargetPaths();
      PathReachesOwnRoute(if authenticated then 0 else 5);
    }
  }
}
