/**
 * `updateSession`: the per-request session refresh and route guard. A
 * request with no signed-in user whose path is under the dashboard (and is
 * not a login or auth path) is redirected to `/login`; every other request
 * gets the session response as it is.
 *
 * The Supabase user lookup is a parameter, and the session response is
 * opaque: the cookies `setAll` copies onto it are not modelled.
 */
module Middleware {
  import opened Js

  /** The parts of a `URL` the guard reads or writes. */
  datatype Url = Url(protocol: string, host: string, pathname: string, search: string, hash: string)

  /** The response the session client produced, held as an opaque token. */
  datatype SessionResponse = SessionResponse(token: int)

  datatype Response = Pass(session: SessionResponse) | Redirect(location: Url)

  /** Lines 38-43: no user, and a dashboard path that is neither a login
      nor an auth path. */
  predicate ShouldRedirect(hasUser: bool, pathname: string) {
    !hasUser && !Includes(pathname, "/login") && !Includes(pathname, "/auth") && Includes(pathname, "/dashboard")
  }

  function UpdateSession(hasUser: bool, url: Url, session: SessionResponse): Response {
    if ShouldRedirect(hasUser, url.pathname) then
      var target := url.(pathname := "/login");
      Redirect(target)
    else Pass(session)
  }

  // ---------------------------------------------------------------------
  // Properties
  // ---------------------------------------------------------------------

  /** A redirect happens exactly when there is no user and "/dashboard"
      occurs in the path while "/login" and "/auth" do not. */
  lemma RedirectIff(hasUser: bool, url: Url, session: SessionResponse)
    ensures UpdateSession(hasUser, url, session).Redirect? <==>
      && !hasUser
      && (exists i :: OccursAt(url.pathname, "/dashboard", i))
      && (forall i :: !OccursAt(url.pathname, "/login", i))
      && (forall i :: !OccursAt(url.pathname, "/auth", i))
  {
  }

  /** A signed-in user is never redirected, and gets the session response. */
  lemma SignedInPasses(url: Url, session: SessionResponse)
    ensures UpdateSession(true, url, session) == Pass(session)
  {
  }

  /** The redirect target is the request URL with only its pathname
      replaced by "/login"; otherwise the session response is unchanged. */
  lemma RedirectTarget(hasUser: bool, url: Url, session: SessionResponse)
    ensures var r := UpdateSession(hasUser, url, session);
      && (r.Redirect? ==>
            && r.location.pathname == "/login"
            && r.location.protocol == url.protocol && r.location.host == url.host
            && r.location.search == url.search && r.location.hash == url.hash)
      && (r.Pass? ==> r.session == session)
  {
  }

  /** The dashboard itself is guarded. */
  lemma DashboardGuarded(url: Url, session: SessionResponse)
    ensures UpdateSession(false, url.(pathname := "/dashboard"), session) == Redirect(url.(pathname := "/login"))
  {
    DashboardPath();
  }

  lemma DashboardPath()
    ensures Includes("/dashboard", "/dashboard")
    ensures !Includes("/dashboard", "/login") && !Includes("/dashboard", "/auth")
  {
    assert OccursAt("/dashboard", "/dashboard", 0);
    OnlyLeadingSlash("/dashboard", "/login");
    OnlyLeadingSlash("/dashboard", "/auth");
  }

  /** A path whose only `/` is its first letter, followed by a letter
      other than the needle's second, does not hold the needle. */
  lemma OnlyLeadingSlash(s: string, t: string)
    requires |s| >= 2 && |t| >= 2 && t[0] == '/' && s[1] != t[1]
    requires forall k :: 0 < k < |s| ==> s[k] != '/'
    ensures !Includes(s, t)
  {
    NotIn(s, t);
  }

  /** Any path in which "/auth" or "/login" occurs passes, even under the
      dashboard: the test is on substrings, not on path segments. */
  lemma AuthOrLoginSubstringPasses(url: Url, session: SessionResponse, before: string, after: string)
    ensures UpdateSession(false, url.(pathname := before + "/auth" + after), session).Pass?
    ensures UpdateSession(false, url.(pathname := before + "/login" + after), session).Pass?
  {
    var a := before + "/auth" + after;
    var l := before + "/login" + after;
    assert a[|before|..|before| + 5] == "/auth";
    assert OccursAt(a, "/auth", |before|);
    assert l[|before|..|before| + 6] == "/login";
    assert OccursAt(l, "/login", |before|);
  }

  /** A needle whose first letter `/` is followed in the path only by
      letters other than its second does not occur. */
  lemma NotIn(s: string, t: string)
    requires |t| >= 2 && t[0] == '/'
    requires forall k :: 0 <= k < |s| - 1 && s[k] == '/' ==> s[k + 1] != t[1]
    ensures !Includes(s, t)
  {
    forall i
      ensures !OccursAt(s, t, i)
    {
      if 0 <= i && i + |t| <= |s| {
        var w := s[i..i + |t|];
        assert w[0] == s[i] && w[1] == s[i + 1];
      }
    }
  }
}
