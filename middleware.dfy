/**
 * The request middleware: the cookie adapter handed to the server-side auth
 * client, the redirect decision taken on every request, and the path matcher
 * that selects which requests the middleware runs on.
 *
 * The session user and the `nivel_acesso` of that user's profile row are the
 * results of remote lookups; here they are plain inputs.
 */
module Middleware {
  import opened Js
  import opened Routes
  import Backend

  /** The prefix the coordinator-area guard tests. It is spelt `/dashbord`,
      one letter short of the coordinator dashboard's own path. */
  const GuardedPrefix := "/dashbord"
  const LoginPrefix := "/auth/login"
  const SignUpPrefix := "/auth/sign-up"

  /** What the middleware does with a request. */
  datatype Outcome = Redirect(location: string) | Next

  predicate IsAuthPage(path: string) {
    StartsWith(path, LoginPrefix) || StartsWith(path, SignUpPrefix)
  }

  /**
   * The redirect decision. `user` is the session user, if any; `level` is the
   * `nivel_acesso` of that user's profile row, `None` when the lookup returned
   * no row. A row whose `nivel_acesso` is null compares unequal to "admin",
   * just as any other non-admin level does.
   */
  function Decide(path: string, user: Option<Backend.UserId>, level: Option<string>): (r: Outcome)
    ensures r.Redirect? ==> r.location in {LoginPage, HomePage, CoordinatorHome, StudentHome}
    ensures r.Redirect? ==> StartsWith(path, GuardedPrefix) || (IsAuthPage(path) && user.Some?)
  {
    if StartsWith(path, GuardedPrefix) && user.None? then
      Redirect(LoginPage)
    else if StartsWith(path, GuardedPrefix) && level != Some(Backend.AdminLevel) then
      Redirect(HomePage)
    else if IsAuthPage(path) && user.Some? then
      if level == Some(Backend.AdminLevel) then Redirect(CoordinatorHome) else Redirect(StudentHome)
    else
      Next
  }

  /** A path in the guarded family is never an auth page. */
  lemma GuardedFamiliesDisjoint(path: string)
    ensures !(StartsWith(path, GuardedPrefix) && IsAuthPage(path))
  {
    if StartsWith(path, GuardedPrefix) && StartsWith(path, LoginPrefix) {
      PrefixesAgree(path, GuardedPrefix, LoginPrefix, 1);
    }
    if StartsWith(path, GuardedPrefix) && StartsWith(path, SignUpPrefix) {
      PrefixesAgree(path, GuardedPrefix, SignUpPrefix, 1);
    }
  }

  /** The access policy the decision enforces, stated without its order: a
      request passes exactly when it is not a guarded path of a visitor who is
      not a signed-in admin, and not an auth page of a signed-in user. */
  ghost predicate MayPass(path: string, user: Option<Backend.UserId>, level: Option<string>) {
    && (StartsWith(path, GuardedPrefix) ==> user.Some? && level == Some(Backend.AdminLevel))
    && (IsAuthPage(path) ==> user.None?)
  }

  lemma PassesIff(path: string, user: Option<Backend.UserId>, level: Option<string>)
    ensures Decide(path, user, level) == Next <==> MayPass(path, user, level)
  {
    GuardedFamiliesDisjoint(path);
  }

  /** A visitor without a session on a guarded path is sent to the login page,
      and that is the only way to be sent there. */
  lemma LoginRedirectIff(path: string, user: Option<Backend.UserId>, level: Option<string>)
    ensures Decide(path, user, level) == Redirect(LoginPage) <==> StartsWith(path, GuardedPrefix) && user.None?
  {
  }

  /** A signed-in user on a guarded path without an admin profile (no profile
      row, or any other level) is sent to the home page, and that is the only
      way to be sent there. */
  lemma HomeRedirectIff(path: string, user: Option<Backend.UserId>, level: Option<string>)
    ensures Decide(path, user, level) == Redirect(HomePage) <==>
      StartsWith(path, GuardedPrefix) && user.Some? && level != Some(Backend.AdminLevel)
  {
  }

  /** An admin on a guarded path passes through. */
  lemma AdminOnGuardedPathPasses(path: string, id: Backend.UserId)
    requires StartsWith(path, GuardedPrefix)
    ensures Decide(path, Some(id), Some(Backend.AdminLevel)) == Next
  {
    GuardedFamiliesDisjoint(path);
  }

  /** A path in neither family passes through whoever asks. */
  lemma UnguardedPathPasses(path: string, user: Option<Backend.UserId>, level: Option<string>)
    requires !StartsWith(path, GuardedPrefix) && !IsAuthPage(path)
    ensures Decide(path, user, level) == Next
  {
  }

  /** The coordinator dashboard itself is not under the guarded prefix, so no
      request for it, or for anything below it, is ever redirected. */
  lemma DashboardNeverGuarded(rest: string, user: Option<Backend.UserId>, level: Option<string>)
    ensures Decide(CoordinatorHome + rest, user, level) == Next
  {
    var path := CoordinatorHome + rest;
    assert path[1] == 'd' && path[7] == 'a';
    DiffersAt(path, GuardedPrefix, 7);
    DiffersAt(path, LoginPrefix, 1);
    DiffersAt(path, SignUpPrefix, 1);
  }

  /** A signed-in user on an auth page is sent on by role: admins to the
      coordinator dashboard, everyone else, including a user without a
      profile row, to the student area. */
  lemma SignedInOnAuthPageRedirectedByRole(path: string, id: Backend.UserId, level: Option<string>)
    requires IsAuthPage(path)
    ensures Decide(path, Some(id), level) ==
      if level == Some(Backend.AdminLevel) then Redirect(CoordinatorHome) else Redirect(StudentHome)
  {
    GuardedFamiliesDisjoint(path);
  }

  /** A visitor without a session may open the auth pages. */
  lemma AnonymousOnAuthPagePasses(path: string, level: Option<string>)
    requires IsAuthPage(path)
    ensures Decide(path, None, level) == Next
  {
    GuardedFamiliesDisjoint(path);
  }

  /**
   * The cookie adapter of one middleware invocation. `requestCookies` is the
   * request's cookie store, which `set` and `remove` update in place;
   * `responseCookies` are the cookies on the current `response` object, which
   * `set` and `remove` replace by a fresh response carrying only the cookie
   * just written.
   */
  class CookieAdapter {
    var requestCookies: map<string, string>
    var responseCookies: map<string, string>

    constructor (incoming: map<string, string>)
      ensures requestCookies == incoming && responseCookies == map[]
    {
      requestCookies := incoming;
      responseCookies := map[];
    }

    method Get(name: string) returns (value: Option<string>)
      ensures value.Some? <==> name in requestCookies
      ensures value.Some? ==> value.value == requestCookies[name]
    {
      if name in requestCookies {
        value := Some(requestCookies[name]);
      } else {
        value := None;
      }
    }

    method Set(name: string, value: string)
      modifies this
      ensures requestCookies == old(requestCookies)[name := value]
      ensures responseCookies == map[name := value]
    {
      requestCookies := requestCookies[name := value];
      responseCookies := map[name := value];
    }

    /** Removing a cookie writes it with the empty value; the name stays. */
    method Remove(name: string)
      modifies this
      ensures requestCookies == old(requestCookies)[name := ""]
      ensures responseCookies == map[name := ""]
    {
      requestCookies := requestCookies[name := ""];
      responseCookies := map[name := ""];
    }
  }

  /** What a caller of the adapter observes: `get` after `set` returns the
      value written, `get` after `remove` returns the empty string, other
      names read as before, and the response carries only the last write. */
  method AdapterRoundTrip(jar: CookieAdapter, name: string, other: string, value: string)
    returns (afterSet: Option<string>, afterRemove: Option<string>, otherBefore: Option<string>, otherAfter: Option<string>)
    requires other != name
    modifies jar
    ensures afterSet == Some(value) && afterRemove == Some("")
    ensures otherAfter == otherBefore
    ensures jar.responseCookies == map[name := ""]
  {
    otherBefore := jar.Get(other);
    jar.Set(name, value);
    afterSet := jar.Get(name);
    jar.Remove(name);
    afterRemove := jar.Get(name);
    otherAfter := jar.Get(other);
  }

  /** The characters JavaScript's `.` in a regular expression does not match. */
  predicate IsLineTerminator(c: char) {
    c == '\n' || c == '\r' || c == '\U{2028}' || c == '\U{2029}'
  }

  predicate NoLineTerminator(s: string) {
    forall i :: 0 <= i < |s| ==> !IsLineTerminator(s[i])
  }

  const ImageExtensions := ["svg", "png", "jpg", "jpeg", "gif", "webp"]

  /** The `favicon.ico` alternative; its `.` is unescaped and stands for any
      character but a line terminator. */
  predicate FaviconLike(rest: string) {
    |rest| >= 11 && rest[..7] == "favicon" && !IsLineTerminator(rest[7]) && rest[8..11] == "ico"
  }

  predicate HasImageExtension(rest: string) {
    || EndsWith(rest, ".svg") || EndsWith(rest, ".png") || EndsWith(rest, ".jpg")
    || EndsWith(rest, ".jpeg") || EndsWith(rest, ".gif") || EndsWith(rest, ".webp")
  }

  /** The negative lookahead of the matcher, tried on what follows the
      leading `/`. */
  predicate Excluded(rest: string) {
    || StartsWith(rest, "_next/static")
    || StartsWith(rest, "_next/image")
    || FaviconLike(rest)
    || (NoLineTerminator(rest) && HasImageExtension(rest))
  }

  /** The matcher `/((?!…).*)`, anchored at both ends of the path. */
  predicate Matches(path: string) {
    |path| > 0 && path[0] == '/' && NoLineTerminator(path[1..]) && !Excluded(path[1..])
  }

  /** The last alternative of the lookahead as the regular expression reads:
      `.*` over non-line-terminators, a literal dot, one of the extensions, and
      the end of the input. */
  ghost predicate ImageAlternative(rest: string) {
    exists k :: 0 <= k < |rest| && rest[k] == '.' && NoLineTerminator(rest[..k]) && rest[k + 1..] in ImageExtensions
  }

  lemma ExtensionMatches(rest: string, e: string)
    requires e in ImageExtensions && NoLineTerminator(rest) && EndsWith(rest, "." + e)
    ensures ImageAlternative(rest)
  {
    var k := |rest| - |e| - 1;
    assert rest[k..] == "." + e;
    assert rest[k] == rest[k..][0] == '.';
    assert rest[k + 1..] == rest[k..][1..] == e;
    assert NoLineTerminator(rest[..k]);
  }

  lemma NoLineTerminatorAround(rest: string, k: nat)
    requires k < |rest| && !IsLineTerminator(rest[k])
    requires NoLineTerminator(rest[..k]) && NoLineTerminator(rest[k + 1..])
    ensures NoLineTerminator(rest)
  {
    forall i | 0 <= i < |rest| ensures !IsLineTerminator(rest[i]) {
      if i < k {
        assert rest[i] == rest[..k][i];
      } else if i > k {
        assert rest[i] == rest[k + 1..][i - k - 1];
      }
    }
  }

  predicate IsImageExtension(e: string) {
    e == "svg" || e == "png" || e == "jpg" || e == "jpeg" || e == "gif" || e == "webp"
  }

  lemma ImageExtensionListed(e: string)
    requires e in ImageExtensions
    ensures IsImageExtension(e) && NoLineTerminator(e)
  {
  }

  lemma SuffixAfterDot(rest: string, k: nat)
    requires k < |rest| && rest[k] == '.'
    ensures EndsWith(rest, "." + rest[k + 1..])
  {
    assert rest[k..] == "." + rest[k + 1..];
  }

  lemma ListedSuffix(rest: string, e: string)
    requires IsImageExtension(e) && EndsWith(rest, "." + e)
    ensures HasImageExtension(rest)
  {
    if e == "svg" {
      assert EndsWith(rest, ".svg");
    } else if e == "png" {
      assert EndsWith(rest, ".png");
    } else if e == "jpg" {
      assert EndsWith(rest, ".jpg");
    } else if e == "jpeg" {
      assert EndsWith(rest, ".jpeg");
    } else if e == "gif" {
      assert EndsWith(rest, ".gif");
    } else {
      assert EndsWith(rest, ".webp");
    }
  }

  lemma ImageAlternativeSound(rest: string)
    requires ImageAlternative(rest)
    ensures NoLineTerminator(rest) && HasImageExtension(rest)
  {
    var k :| 0 <= k < |rest| && rest[k] == '.' && NoLineTerminator(rest[..k]) && rest[k + 1..] in ImageExtensions;
    var e := rest[k + 1..];
    ImageExtensionListed(e);
    NoLineTerminatorAround(rest, k);
    SuffixAfterDot(rest, k);
    ListedSuffix(rest, e);
  }

  lemma ImageAlternativeComplete(rest: string)
    requires NoLineTerminator(rest) && HasImageExtension(rest)
    ensures ImageAlternative(rest)
  {
    if EndsWith(rest, ".svg") { ExtensionMatches(rest, "svg"); }
    else if EndsWith(rest, ".png") { ExtensionMatches(rest, "png"); }
    else if EndsWith(rest, ".jpg") { ExtensionMatches(rest, "jpg"); }
    else if EndsWith(rest, ".jpeg") { ExtensionMatches(rest, "jpeg"); }
    else if EndsWith(rest, ".gif") { ExtensionMatches(rest, "gif"); }
    else { ExtensionMatches(rest, "webp"); }
  }

  /** The regular expression's last alternative and the suffix test agree. */
  lemma ImageAlternativeIff(rest: string)
    ensures ImageAlternative(rest) <==> NoLineTerminator(rest) && HasImageExtension(rest)
  {
    if ImageAlternative(rest) {
      ImageAlternativeSound(rest);
    }
    if NoLineTerminator(rest) && HasImageExtension(rest) {
      ImageAlternativeComplete(rest);
    }
  }

  /** Build output and optimised images are skipped. */
  lemma BuildAssetsSkipped(rest: string)
    requires StartsWith(rest, "_next/static") || StartsWith(rest, "_next/image")
    ensures !Matches("/" + rest)
  {
    assert ("/" + rest)[1..] == rest;
  }

  /** Any path naming an image file is skipped. */
  lemma ImageFilesSkipped(stem: string, e: string)
    requires e in ImageExtensions
    ensures !Matches("/" + stem + "." + e)
  {
    var path := "/" + stem + "." + e;
    var rest := path[1..];
    assert rest == stem + "." + e;
    if !NoLineTerminator(stem) {
      var i :| 0 <= i < |stem| && IsLineTerminator(stem[i]);
      assert rest[i] == stem[i];
      return;
    }
    assert rest[|stem|..] == "." + e;
    assert rest[..|stem|] == stem;
    assert rest[|stem| + 1..] == e;
    assert ImageAlternative(rest);
    ImageAlternativeIff(rest);
  }

  /** Any path whose remainder starts with `favicon`, one character other
      than a line terminator, and `ico` is skipped, whatever follows. */
  lemma FaviconSkipped(rest: string)
    requires FaviconLike(rest)
    ensures !Matches("/" + rest)
  {
    assert ("/" + rest)[1..] == rest;
  }

  /** The favicon alternative also skips `/favicon` followed by any character
      and `ico`. */
  lemma FaviconDotIsWildcard()
    ensures !Matches("/favicon.ico") && !Matches("/faviconXico")
  {
    assert "/favicon.ico"[1..][..7] == "favicon";
    assert "/faviconXico"[1..][..7] == "favicon";
  }

  /** A path whose remainder starts with neither `_` nor `f` and does not end
      in `g`, `f` or `p` (the last letters of the image extensions) runs
      through the middleware. */
  lemma PlainPathMatched(rest: string)
    requires NoLineTerminator(rest)
    requires |rest| > 0 ==> rest[0] != '_' && rest[0] != 'f'
    requires |rest| > 0 ==> rest[|rest| - 1] != 'g' && rest[|rest| - 1] != 'f' && rest[|rest| - 1] != 'p'
    ensures Matches("/" + rest)
  {
    assert ("/" + rest)[1..] == rest;
    if |rest| > 0 {
      DiffersAt(rest, "_next/static", 0);
      DiffersAt(rest, "_next/image", 0);
      LastDiffers(rest, ".svg");
      LastDiffers(rest, ".png");
      LastDiffers(rest, ".jpg");
      LastDiffers(rest, ".jpeg");
      LastDiffers(rest, ".gif");
      LastDiffers(rest, ".webp");
    }
  }

  /** The home page and the coordinator dashboard run through the
      middleware. */
  lemma PagesMatched()
    ensures Matches("/")
    ensures Matches(CoordinatorHome)
  {
    assert Matches("/") by {
      PlainPathMatched("");
      assert "/" + "" == "/";
    }
    assert Matches(CoordinatorHome) by {
      PlainPathMatched("dashboard");
      assert "/" + "dashboard" == CoordinatorHome;
    }
  }
}
