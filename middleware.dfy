/**
  The request gate run before every route: public routes pass, any other route needs a
  signed-in user, and the `/admin` area also needs the `ADMIN` role in the session claims.
*/
module Middleware {
  import opened Common

  /** A route pattern: `p(.*)` matches every path starting with `p`, any other pattern one path. */
  datatype Pattern = Exact(path: string) | Prefix(prefix: string)

  datatype Decision = Next | RedirectSignIn | RedirectForbidden

  const PublicRoutes: seq<Pattern> := [
    Exact("/"),
    Prefix("/resources"),
    Prefix("/sign-in"),
    Prefix("/sign-up"),
    Exact("/api/spec"),
    Exact("/api-doc"),
    Prefix("/api/resources"),
    Exact("/reservations/success"),
    Exact("/api/webhooks/clerk"),
    Exact("/api/webhooks/stripe")
  ]

  const AdminRoutes: seq<Pattern> := [Prefix("/admin")]

  predicate Matches(p: Pattern, path: string) {
    match p
    case Exact(q) => path == q
    case Prefix(q) => StartsWith(path, q)
  }

  /** `createRouteMatcher(patterns)(req)`: some pattern matches the path. */
  function MatchesAny(patterns: seq<Pattern>, path: string): (b: bool)
    ensures b <==> exists i :: 0 <= i < |patterns| && Matches(patterns[i], path)
  {
    if patterns == [] then false
    else Matches(patterns[0], path) || MatchesAny(patterns[1..], path)
  }

  /**
    The decision, in the order the middleware takes it: public first, then signed in, then the
    admin role for admin routes.
  */
  function Decide(path: string, userId: Option<string>, sessionRole: Option<string>): (d: Decision)
    ensures MatchesAny(PublicRoutes, path) ==> d == Next
    ensures d == RedirectSignIn <==> !MatchesAny(PublicRoutes, path) && !TruthyString(userId)
    ensures d == RedirectForbidden <==>
              && !MatchesAny(PublicRoutes, path) && TruthyString(userId)
              && MatchesAny(AdminRoutes, path) && sessionRole != Some("ADMIN")
  {
    if MatchesAny(PublicRoutes, path) then Next
    else if !TruthyString(userId) then RedirectSignIn
    else if MatchesAny(AdminRoutes, path) && sessionRole != Some("ADMIN") then RedirectForbidden
    else Next
  }

  /** Both payment webhooks are public: they pass without a signed-in user. */
  lemma WebhooksArePublic(userId: Option<string>, role: Option<string>)
    ensures Decide("/api/webhooks/stripe", userId, role) == Next
    ensures Decide("/api/webhooks/clerk", userId, role) == Next
  {
    assert Matches(PublicRoutes[9], "/api/webhooks/stripe");
    assert Matches(PublicRoutes[8], "/api/webhooks/clerk");
  }

  /** A path that differs from `q` at position `k` neither equals `q` nor starts with it. */
  lemma DiffersAt(path: string, q: string, k: nat)
    requires k < |q| && k < |path| && path[k] != q[k]
    ensures !Matches(Exact(q), path) && !Matches(Prefix(q), path)
  {
  }

  /** No public pattern matches a path under `/api/reservations/`. */
  lemma ReservationsApiNotPublic(path: string)
    requires StartsWith(path, "/api/reservations/")
    ensures !MatchesAny(PublicRoutes, path)
  {
    assert path[..18] == "/api/reservations/";
    assert path[1] == 'a' && path[4] == '/' && path[5] == 'r' && path[8] == 'e';
    forall i | 0 <= i < |PublicRoutes|
      ensures !Matches(PublicRoutes[i], path)
    {
      if i == 0 {
        assert |path| != |"/"|;
      } else {
        var k := if i in {4, 8, 9} then 5 else if i == 5 then 4 else if i == 6 then 8 else 1;
        var q := match PublicRoutes[i] case Exact(q) => q case Prefix(q) => q;
        DiffersAt(path, q, k);
      }
    }
  }

  /** The polling and checkout routes send a signed-out caller to the sign-in page. */
  lemma PaymentRoutesNeedSignIn(role: Option<string>)
    ensures Decide("/api/reservations/verify-payment", None, role) == RedirectSignIn
    ensures Decide("/api/reservations/create-checkout", None, role) == RedirectSignIn
  {
    PrefixStartsWith("/api/reservations/", "verify-payment");
    PrefixStartsWith("/api/reservations/", "create-checkout");
    ReservationsApiNotPublic("/api/reservations/verify-payment");
    ReservationsApiNotPublic("/api/reservations/create-checkout");
  }

  /** A signed-in caller without the `ADMIN` claim is sent to the 403 page from the admin area. */
  lemma AdminAreaNeedsAdmin(rest: string, userId: string, role: Option<string>)
    requires userId != "" && role != Some("ADMIN")
    ensures Decide("/admin" + rest, Some(userId), role) == RedirectForbidden
  {
    var path := "/admin" + rest;
    PrefixStartsWith("/admin", rest);
    assert Matches(AdminRoutes[0], path);
    forall i | 0 <= i < |PublicRoutes|
      ensures !Matches(PublicRoutes[i], path)
    {
      assert path[..6] == "/admin";
      assert path[1] == 'a' && path[2] == 'd';
    }
  }
}
