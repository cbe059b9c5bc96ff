/** The request gate of middleware.ts: the redirect decision taken from
    session presence and the request pathname, and the `matcher` pattern
    that selects which paths the gate runs on. */
module RouteGuard {

  datatype Decision = Pass | Redirect(target: string)

  const HomePath: string := "/"
  const LoginPath: string := "/login"
  const RegisterPath: string := "/register"
  const CallbackPath: string := "/auth/callback"

  /** Paths a visitor without a session may open. */
  const PublicPaths: seq<string> := [LoginPath, RegisterPath, CallbackPath]
  /** Paths a visitor with a session is sent away from. */
  const AuthOnlyPaths: seq<string> := [LoginPath, RegisterPath]

  /** The body of `middleware`: `includes` is exact string equality. */
  function Decide(hasSession: bool, pathname: string): (d: Decision)
    ensures d.Redirect? ==> d.target == LoginPath || d.target == HomePath
    ensures d.Redirect? ==> pathname != CallbackPath
  {
    if !hasSession && pathname !in PublicPaths then Redirect(LoginPath)
    else if hasSession && pathname in AuthOnlyPaths then Redirect(HomePath)
    else Pass
  }

  /** A visitor without a session is sent to the login page from every path
      but the three public ones, and only from those. */
  lemma NoSessionRedirect(pathname: string)
    ensures Decide(false, pathname) == Redirect(LoginPath)
        <==> pathname != LoginPath && pathname != RegisterPath && pathname != CallbackPath
    ensures Decide(false, pathname) != Redirect(HomePath)
  {
  }

  /** A visitor with a session is sent home exactly from login and register. */
  lemma SessionRedirect(pathname: string)
    ensures Decide(true, pathname) == Redirect(HomePath)
        <==> pathname == LoginPath || pathname == RegisterPath
    ensures Decide(true, pathname) != Redirect(LoginPath)
  {
  }

  /** The OAuth callback is never redirected, with or without a session. */
  lemma CallbackAlwaysPasses(hasSession: bool)
    ensures Decide(hasSession, CallbackPath) == Pass
  {
  }

  /** Every other (session, path) pair passes through unchanged. */
  lemma PassExactly(hasSession: bool, pathname: string)
    ensures Decide(hasSession, pathname) == Pass
        <==> ((!hasSession && pathname in PublicPaths) || (hasSession && pathname !in AuthOnlyPaths))
  {
  }

  /** Under the same session state a redirect target is itself let through,
      so the gate never bounces a visitor twice. */
  lemma NoRedirectLoop(hasSession: bool, pathname: string)
    ensures Decide(hasSession, pathname).Redirect? ==>
      Decide(hasSession, Decide(hasSession, pathname).target) == Pass
  {
  }

  /** Membership is whole-path equality: a sub-path of /login is protected,
      and a sub-path of /register is not an auth-only page. */
  lemma PrefixIsNotMembership()
    ensures Decide(false, "/login/x") == Redirect(LoginPath)
    ensures Decide(false, "/auth/callback/") == Redirect(LoginPath)
    ensures Decide(true, "/register/x") == Pass
  {
    assert "/login/x" != LoginPath && "/login/x" != RegisterPath && "/login/x" != CallbackPath;
    assert "/auth/callback/" != LoginPath && "/auth/callback/" != RegisterPath;
    assert "/auth/callback/" != CallbackPath;
    assert "/register/x" != LoginPath && "/register/x" != RegisterPath;
  }

  // ---- config.matcher: "/((?!_next/static|_next/image|favicon.ico).*)"

  /** The alternatives of the negative lookahead, as regular-expression
      text: the `.` of "favicon.ico" is the any-character wildcard. */
  const ExcludedPrefixes: seq<string> := ["_next/static", "_next/image", "favicon.ico"]

  /** `pattern` (literal characters and `.`) matches a prefix of `s`. */
  predicate PatternPrefix(pattern: string, s: string) {
    |pattern| <= |s| &&
    forall i :: 0 <= i < |pattern| ==> pattern[i] == '.' || pattern[i] == s[i]
  }

  /** The route matcher: a leading "/" whose remainder does not start with
      one of the excluded alternatives. */
  predicate GuardApplies(pathname: string) {
    |pathname| > 0 && pathname[0] == '/' &&
    forall k :: 0 <= k < |ExcludedPrefixes| ==> !PatternPrefix(ExcludedPrefixes[k], pathname[1..])
  }

  /** What a request receives: a redirect only on a path that starts with
      "/" and whose remainder begins with none of the excluded alternatives,
      and then only the one `Decide` makes; every asset path passes. */
  function Middleware(hasSession: bool, pathname: string): (d: Decision)
    ensures d.Redirect? ==> |pathname| > 0 && pathname[0] == '/'
    ensures d.Redirect? ==>
      forall k :: 0 <= k < |ExcludedPrefixes| ==> !PatternPrefix(ExcludedPrefixes[k], pathname[1..])
    ensures forall k :: (0 <= k < |ExcludedPrefixes| && |pathname| > 0 &&
                        PatternPrefix(ExcludedPrefixes[k], pathname[1..])) ==> d == Pass
    ensures d.Redirect? ==> d == Decide(hasSession, pathname)
    ensures d.Redirect? ==> d.target == LoginPath || d.target == HomePath
    ensures (|pathname| > 0 && pathname[0] == '/' &&
             forall k :: 0 <= k < |ExcludedPrefixes| ==> !PatternPrefix(ExcludedPrefixes[k], pathname[1..])) ==>
      d == Decide(hasSession, pathname)
  {
    if GuardApplies(pathname) then Decide(hasSession, pathname) else Pass
  }

  /** A pattern matches the start of any string that begins with the
      pattern's own text (a `.` matches itself as well). */
  lemma LiteralPrefix(pattern: string, rest: string)
    ensures PatternPrefix(pattern, pattern + rest)
  {
    assert forall i :: 0 <= i < |pattern| ==> (pattern + rest)[i] == pattern[i];
  }

  /** Without a session, every guarded path that is not public is sent to
      the login page. */
  lemma ProtectedPathsRedirect(pathname: string)
    requires GuardApplies(pathname) && pathname !in PublicPaths
    ensures Middleware(false, pathname) == Redirect(LoginPath)
  {
  }

  /** With a session, the login and register pages send the visitor home. */
  lemma AuthOnlyPathsRedirect(pathname: string)
    requires pathname in AuthOnlyPaths
    ensures Middleware(true, pathname) == Redirect(HomePath)
  {
    assert pathname == LoginPath || pathname == RegisterPath;
    assert pathname[1..] == "login" || pathname[1..] == "register";
    assert !PatternPrefix(ExcludedPrefixes[0], pathname[1..]);
    assert !PatternPrefix(ExcludedPrefixes[1], pathname[1..]);
    assert !PatternPrefix(ExcludedPrefixes[2], pathname[1..]);
  }

  /** Static files, optimised images and the favicon skip the gate. */
  lemma AssetsSkipGuard(hasSession: bool, rest: string)
    ensures Middleware(hasSession, "/_next/static" + rest) == Pass
    ensures Middleware(hasSession, "/_next/image" + rest) == Pass
    ensures Middleware(hasSession, "/favicon.ico" + rest) == Pass
  {
    var a, b, c := "/_next/static" + rest, "/_next/image" + rest, "/favicon.ico" + rest;
    assert a[1..] == ExcludedPrefixes[0] + rest;
    LiteralPrefix(ExcludedPrefixes[0], rest);
    assert b[1..] == ExcludedPrefixes[1] + rest;
    LiteralPrefix(ExcludedPrefixes[1], rest);
    assert c[1..] == ExcludedPrefixes[2] + rest;
    LiteralPrefix(ExcludedPrefixes[2], rest);
  }

  /** The pages of the application are all guarded, and so are other files
      under /_next/ (the exclusion is by prefix, not by directory). */
  lemma PagesAreGuarded()
    ensures GuardApplies("/") && GuardApplies("/login") && GuardApplies("/profile")
    ensures GuardApplies("/_next/data/x")
    ensures Middleware(false, "/") == Redirect(LoginPath)
    ensures Middleware(true, "/login") == Redirect(HomePath)
  {
    assert !PatternPrefix(ExcludedPrefixes[0], "login") && !PatternPrefix(ExcludedPrefixes[1], "login");
    assert !PatternPrefix(ExcludedPrefixes[2], "login");
    assert !PatternPrefix(ExcludedPrefixes[0], "profile") && !PatternPrefix(ExcludedPrefixes[1], "profile");
    assert !PatternPrefix(ExcludedPrefixes[2], "profile");
    var d := "_next/data/x";
    assert d[6] == 'd' && ExcludedPrefixes[0][6] == 's' && ExcludedPrefixes[1][6] == 'i';
    assert d[0] == '_' && ExcludedPrefixes[2][0] == 'f';
    assert "/_next/data/x"[1..] == d;
  }

  /** The unescaped `.` lets "/faviconXico" skip the gate as well. */
  lemma WildcardDotInMatcher()
    ensures !GuardApplies("/faviconXico")
    ensures Middleware(false, "/faviconXico") == Pass
  {
    assert PatternPrefix(ExcludedPrefixes[2], "/faviconXico"[1..]);
  }
}
