/** The request middleware: which requests pass, which are sent to the login
    page and which are sent back to the home page. The session token lookup is
    an input: None when the request carries no valid token, otherwise the role
    the token records. */
module Middleware {
  import opened Domain
  import Strings

  datatype Decision = Next | RedirectLogin | RedirectHome

  const AuthPrefix := "/api/auth"
  const DirectorPrefix := "/director"
  const ParamedicPrefix := "/paramedic"

  /** Paths that need no authentication, matched exactly. */
  const PublicPaths: seq<string> := ["/login", "/", "/AI-Assistant", "/api/seed", "/api/gemini"]

  /** Public by exact match, or a system path by substring match. */
  predicate IsPublic(path: string) {
    path in PublicPaths || Strings.Contains(path, "favicon") || Strings.Contains(path, "_next")
  }

  function Decide(path: string, token: Option<Role>): (d: Decision)
    ensures AuthPrefix <= path ==> d == Next
    ensures d == RedirectLogin ==> token.None?
  {
    if AuthPrefix <= path then Next
    else if IsPublic(path) then Next
    else if token.None? then RedirectLogin
    else if DirectorPrefix <= path && token.value != MedicalDirector then RedirectHome
    else if ParamedicPrefix <= path && token.value != Paramedic then RedirectHome
    else Next
  }

  /** Every auth route passes whatever the token. */
  lemma AuthRoutesPass(path: string, t1: Option<Role>, t2: Option<Role>)
    requires AuthPrefix <= path
    ensures Decide(path, t1) == Decide(path, t2) == Next
  {
  }

  /** Public and system paths pass without a token. */
  lemma PublicPathsPass(path: string)
    requires IsPublic(path)
    ensures Decide(path, None) == Next
  {
  }

  /** Because "_next" is matched anywhere in the path, a director page path
      that merely contains it passes without authentication. */
  lemma SubstringBypass()
    ensures Decide("/director/_next", None) == Next
  {
    assert Strings.OccursAt("/director/_next", "_next", 10);
  }

  /** Every other path without a token is sent to the login page. */
  lemma NoTokenRedirectsToLogin(path: string)
    requires !(AuthPrefix <= path) && !IsPublic(path)
    ensures Decide(path, None) == RedirectLogin
  {
  }

  /** With a token the decision is never the login redirect. */
  lemma TokenNeverRedirectsToLogin(path: string, role: Role)
    ensures Decide(path, Some(role)) != RedirectLogin
  {
  }

  /** Role gating on the two dashboards. */
  lemma DirectorPagesNeedDirector(path: string, role: Role)
    requires !(AuthPrefix <= path) && !IsPublic(path) && DirectorPrefix <= path
    ensures Decide(path, Some(role)) == RedirectHome <==> role != MedicalDirector
  {
    assert !(ParamedicPrefix <= path) by {
      assert path[1] == 'd';
    }
  }

  lemma ParamedicPagesNeedParamedic(path: string, role: Role)
    requires !(AuthPrefix <= path) && !IsPublic(path) && ParamedicPrefix <= path
    ensures Decide(path, Some(role)) == RedirectHome <==> role != Paramedic
  {
    assert !(DirectorPrefix <= path) by {
      assert path[1] == 'p';
    }
  }

  /** Outside the two dashboards any token holder passes, whatever the role. */
  lemma OtherPagesPassAnyRole(path: string, role: Role)
    requires !(DirectorPrefix <= path) && !(ParamedicPrefix <= path)
    ensures Decide(path, Some(role)) == Next
  {
  }

  /** The paths the middleware is configured to run on: "/" followed by a
      remainder that does not start with "api/auth", "_next", "_vercel" or
      "favicon.ico" and has no dot. */
  predicate MatcherSelects(path: string) {
    && |path| >= 1 && path[0] == '/'
    && var rest := path[1..];
    && !("api/auth" <= rest) && !("_next" <= rest) && !("_vercel" <= rest)
    && !("favicon.ico" <= rest) && '.' !in rest
  }

  /** Under the configured matcher the auth-route branch is never reached,
      while the substring bypass above still is. */
  lemma MatcherSkipsAuthRoutes(path: string)
    requires AuthPrefix <= path
    ensures !MatcherSelects(path)
  {
    assert "api/auth" <= path[1..];
  }

  lemma MatcherReachesBypass()
    ensures MatcherSelects("/director/_next")
  {
    var rest := "/director/_next"[1..];
    assert rest[0] == 'd';
    assert forall k :: 0 <= k < |rest| ==> rest[k] != '.';
  }
}
