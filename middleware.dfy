/**
  The route guard of src/middleware.ts: a redirect decision over the request
  path and whether a session exists, and the `config.matcher` pattern that
  decides which paths reach the guard at all.
 */
module Middleware {
  import opened Text

  /** `NextResponse.next()` or `NextResponse.redirect(location)`. */
  datatype Decision = Next | Redirect(location: string)

  const ChatPath := "/chat"
  const LoginPath := "/login"

  /** `middleware`: a path under the `/chat` prefix without a session goes to the login page;
      the login page with a session goes to the chat; everything else passes through. */
  function Decide(pathname: string, hasSession: bool): (d: Decision)
    ensures StartsWith(pathname, ChatPath) && !hasSession ==> d == Redirect(LoginPath)
    ensures pathname == LoginPath && hasSession ==> d == Redirect(ChatPath)
    ensures d.Next? <==> !(StartsWith(pathname, ChatPath) && !hasSession) && !(pathname == LoginPath && hasSession)
    ensures d.Redirect? ==> d.location == LoginPath || d.location == ChatPath
  {
    if StartsWith(pathname, ChatPath) && !hasSession then Redirect(LoginPath)
    else if pathname == LoginPath && hasSession then Redirect(ChatPath)
    else Next
  }

  /** The two redirect rules never apply to the same path: `/login` is not under `/chat`. */
  lemma RulesDisjoint(pathname: string)
    ensures !(StartsWith(pathname, ChatPath) && pathname == LoginPath)
  {
    if pathname == LoginPath {
      assert pathname[1] == 'l' != 'c' == ChatPath[1];
    }
  }

  /** The guard is a prefix test: `/chat/x` and `/chatroom` are protected like `/chat`. */
  lemma PrefixProtects(suffix: string)
    ensures Decide(ChatPath + suffix, false) == Redirect(LoginPath)
  {
    assert (ChatPath + suffix)[..|ChatPath|] == ChatPath;
  }

  /** The lookahead `(?!api|_next/static|_next/image|favicon.ico)` after the leading `/`.
      In the pattern the `.` of `favicon.ico` is a regular-expression wildcard; it does not match a
      line terminator, but a URL pathname never holds one raw, so any character stands in for it. */
  predicate ExcludedHead(rest: string)
    ensures ExcludedHead(rest) ==> |rest| >= 3
  {
    || StartsWith(rest, "api")
    || StartsWith(rest, "_next/static")
    || StartsWith(rest, "_next/image")
    || (|rest| >= 11 && rest[..7] == "favicon" && rest[8..11] == "ico")
  }

  /** `matcher: '/((?!api|_next/static|_next/image|favicon.ico).*)'`: exactly the paths that start
      with `/` and are not under `/api`, `/_next/static`, `/_next/image` or `/favicon?ico` (any
      character in place of `?`) reach the guard. */
  function Matches(pathname: string): (m: bool)
    ensures m <==>
      && StartsWith(pathname, "/")
      && !StartsWith(pathname, "/api")
      && !StartsWith(pathname, "/_next/static")
      && !StartsWith(pathname, "/_next/image")
      && !(|pathname| >= 12 && pathname[1..8] == "favicon" && pathname[9..12] == "ico")
    ensures StartsWith(pathname, "/favicon.ico") ==> !m
    ensures StartsWith(pathname, "/") && (|pathname| == 1 || pathname[1] !in {'a', '_', 'f'}) ==> m
  {
    if pathname != [] && pathname[0] == '/' then
      ExcludedHeadOnPath(pathname);
      ExcludedHeadShape(pathname[1..]);
      StartsWithCons(pathname, '/', "favicon.ico");
      !ExcludedHead(pathname[1..])
    else false
  }

  /** The lookahead on the text after the leading `/`, restated on the whole path. */
  lemma ExcludedHeadOnPath(pathname: string)
    requires pathname != [] && pathname[0] == '/'
    ensures ExcludedHead(pathname[1..]) <==>
      || StartsWith(pathname, "/api")
      || StartsWith(pathname, "/_next/static")
      || StartsWith(pathname, "/_next/image")
      || (|pathname| >= 12 && pathname[1..8] == "favicon" && pathname[9..12] == "ico")
  {
    var rest := pathname[1..];
    assert StartsWith(rest, "api") <==> StartsWith(pathname, "/api") by {
      StartsWithCons(pathname, '/', "api");
      assert ['/'] + "api" == "/api";
    }
    assert StartsWith(rest, "_next/static") <==> StartsWith(pathname, "/_next/static") by {
      StartsWithCons(pathname, '/', "_next/static");
      assert ['/'] + "_next/static" == "/_next/static";
    }
    assert StartsWith(rest, "_next/image") <==> StartsWith(pathname, "/_next/image") by {
      StartsWithCons(pathname, '/', "_next/image");
      assert ['/'] + "_next/image" == "/_next/image";
    }
    if |pathname| >= 12 {
      assert pathname[1..8] == rest[..7];
      assert pathname[9..12] == rest[8..11];
    }
  }

  /** An excluded head begins with `a`, `_` or `f`, and covers every path under `favicon.ico`. */
  lemma ExcludedHeadShape(rest: string)
    ensures ExcludedHead(rest) ==> rest[0] in {'a', '_', 'f'}
    ensures StartsWith(rest, "favicon.ico") ==> ExcludedHead(rest)
  {
    if StartsWith(rest, "favicon.ico") {
      assert rest[..7] == rest[..11][..7];
      assert rest[8..11] == rest[..11][8..11];
    }
    if StartsWith(rest, "api") { assert rest[0] == rest[..3][0]; }
    if StartsWith(rest, "_next/static") { assert rest[0] == rest[..12][0]; }
    if StartsWith(rest, "_next/image") { assert rest[0] == rest[..11][0]; }
  }

  /** What the application does with a request: the guard runs only on matched paths. */
  function Handle(pathname: string, hasSession: bool): (d: Decision)
    ensures !Matches(pathname) ==> d == Next
    ensures Matches(pathname) ==> d == Decide(pathname, hasSession)
  {
    if Matches(pathname) then Decide(pathname, hasSession) else Next
  }

  /** The matcher never skips the guarded paths, so the guard's redirects always take effect. */
  lemma GuardedPathsReachGuard(pathname: string, hasSession: bool)
    requires StartsWith(pathname, ChatPath) || pathname == LoginPath
    ensures Handle(pathname, hasSession) == Decide(pathname, hasSession)
  {
    assert pathname[0] == '/' && pathname[1] in {'c', 'l'};
    assert pathname[..1] == "/";
  }
}
