/**
 * The request guard that runs in front of the blog pages (middleware.ts).
 * The hosted session lookup is replaced by a parameter: the email of the
 * signed-in user, or None when nobody is signed in.
 */
module RouteGuard {

  datatype Option<T> = None | Some(value: T)

  /** What the guard does with a request: let it through, or redirect it. */
  datatype Decision = Next | Redirect(target: string)

  const AdminEmails: seq<string> := ["your.admin@email.com"]
  const ProtectedPaths: seq<string> := ["/blog/new"]
  const LoginPath: string := "/blog/login"
  const BlogPath: string := "/blog"

  /** JavaScript's `s.startsWith(prefix)`. */
  predicate StartsWith(s: string, prefix: string)
    ensures StartsWith(s, prefix) <==>
      |prefix| <= |s| && forall i :: 0 <= i < |prefix| ==> s[i] == prefix[i]
  {
    |prefix| <= |s| && s[..|prefix|] == prefix
  }

  /** `protectedPaths.some(path => pathname.startsWith(path))`: exactly a prefix test against "/blog/new". */
  predicate IsProtectedPath(path: string)
    ensures IsProtectedPath(path) <==> StartsWith(path, "/blog/new")
  {
    assert StartsWith(path, "/blog/new") ==> StartsWith(path, ProtectedPaths[0]);
    exists i :: 0 <= i < |ProtectedPaths| && StartsWith(path, ProtectedPaths[i])
  }

  /** `ADMIN_EMAILS.includes(email)`. */
  predicate IsAdmin(email: string)
    ensures IsAdmin(email) <==> email == "your.admin@email.com"
  {
    email in AdminEmails
  }

  /** The decision `middleware` takes for a request path and session. */
  function Middleware(path: string, session: Option<string>): (d: Decision)
    ensures d.Redirect? ==> d.target == LoginPath || d.target == BlogPath
    ensures d == Redirect(LoginPath) <==> IsProtectedPath(path) && session.None?
  {
    if IsProtectedPath(path) && session.None? then
      Redirect(LoginPath)
    else if IsProtectedPath(path) && !IsAdmin(session.value) then
      Redirect(BlogPath)
    else if path == LoginPath && session.Some? then
      Redirect(BlogPath)
    else
      Next
  }

  /** Paths below or beside "/blog/new" are protected; the blog index and login page are not. */
  lemma ProtectedExamples()
    ensures IsProtectedPath("/blog/new")
    ensures IsProtectedPath("/blog/new/x")
    ensures IsProtectedPath("/blog/newsletter")
    ensures !IsProtectedPath("/blog")
    ensures !IsProtectedPath(LoginPath)
  {
    assert LoginPath[..9][6] != "/blog/new"[6];
  }

  /** An anonymous request to a protected path is sent to the login page. */
  lemma AnonymousProtectedGoesToLogin(path: string)
    requires StartsWith(path, "/blog/new")
    ensures Middleware(path, None) == Redirect(LoginPath)
  {
  }

  /** A signed-in user who is no admin is sent from a protected path to the blog. */
  lemma NonAdminProtectedGoesToBlog(path: string, email: string)
    requires StartsWith(path, "/blog/new")
    requires email !in AdminEmails
    ensures Middleware(path, Some(email)) == Redirect(BlogPath)
  {
  }

  /** An admin reaches every protected path. */
  lemma AdminPassesProtected(path: string, email: string)
    requires StartsWith(path, "/blog/new")
    requires email in AdminEmails
    ensures Middleware(path, Some(email)) == Next
  {
    ProtectedExamples();
  }

  /** The login page bounces signed-in users to the blog and admits anonymous ones. */
  lemma LoginPageDecision(session: Option<string>)
    ensures Middleware(LoginPath, session) == if session.Some? then Redirect(BlogPath) else Next
  {
    ProtectedExamples();
  }

  /**
   * Every outcome: a request passes exactly when it is not a protected path
   * reached without admin rights and not the login page reached while signed in.
   */
  lemma NextIff(path: string, session: Option<string>)
    ensures Middleware(path, session) == Next <==>
      (!IsProtectedPath(path) || (session.Some? && IsAdmin(session.value))) &&
      !(path == LoginPath && session.Some?)
  {
    ProtectedExamples();
  }

  /** A redirect to the blog happens exactly for non-admins on protected paths and signed-in users on the login page. */
  lemma RedirectToBlogIff(path: string, session: Option<string>)
    ensures Middleware(path, session) == Redirect(BlogPath) <==>
      session.Some? &&
      ((IsProtectedPath(path) && !IsAdmin(session.value)) || path == LoginPath)
  {
    ProtectedExamples();
    assert LoginPath != BlogPath by { assert |LoginPath| != |BlogPath|; }
  }

  /** Following a redirect with the same session is never redirected again: no redirect loop. */
  lemma NoRedirectChain(path: string, session: Option<string>)
    requires Middleware(path, session).Redirect?
    ensures Middleware(Middleware(path, session).target, session) == Next
  {
    ProtectedExamples();
    var t := Middleware(path, session).target;
    if t == LoginPath {
      assert session.None?;
    } else {
      assert t == BlogPath;
      assert BlogPath != LoginPath by { assert |LoginPath| != |BlogPath|; }
    }
  }
}
