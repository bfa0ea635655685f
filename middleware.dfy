/** The request-authorization gate of src/middleware.ts: a chain of guard
    clauses deciding, for one request path and the caller's session token,
    whether the request passes, is redirected, is refused with a 403, or makes
    the gate throw. The route matcher that decides which paths reach the gate
    at all is modelled here too. */
module Middleware {
  import opened Wrappers
  import opened Strings
  import opened Security

  /** What the gate returns. `Error` stands for the TypeError thrown when the
      action table has no entry for the requested API call. */
  datatype Decision = Next | Redirect(location: string) | Json403 | Error

  const Dashboard: string := "/dashboard"
  const NotFound: string := "/404"

  /** Pages reachable without a session. */
  const PublicPages: seq<string> := ["/login", "/forgot-password", "/reset-password"]

  /** The action table: qualifier, then action name, then the roles allowed. */
  type ActionTable = map<string, map<string, seq<Role>>>

  /** `roles.includes(user?.role)`: an absent token carries no role, and no
      role list holds `undefined`. */
  predicate HasRole(roles: seq<Role>, token: Option<Role>)
  {
    token.Some? && token.value in roles
  }

  /** The key JavaScript uses when indexing an object with a value that may be
      `undefined`: the value itself, or the string "undefined". */
  function PropertyKey(segment: Option<string>): string
  {
    match segment
    case Some(s) => s
    case None => "undefined"
  }

  /** Element `i` of an array, or `undefined` past its end. */
  function Segment(parts: seq<string>, i: nat): (r: Option<string>)
    ensures r.Some? <==> i < |parts|
    ensures r.Some? ==> r.value == parts[i]
  {
    if i < |parts| then Some(parts[i]) else None
  }

  /** `const [qualifier, action] = pathname.split('/').slice(2)`: the third
      and fourth pieces of the path, each free of `/`, the action present only
      when the qualifier is. */
  function ApiTarget(path: string): (r: (Option<string>, Option<string>))
    ensures r.0.Some? ==> '/' !in r.0.value
    ensures r.1.Some? ==> '/' !in r.1.value
    ensures r.1.Some? ==> r.0.Some?
  {
    var parts := Split(path, '/');
    (Segment(parts, 2), Segment(parts, 3))
  }

  /** Entry `i` is the one `SECTIONS.find` returns for `path`: its href is a
      prefix of the path, and no earlier entry's href is. */
  ghost predicate FirstMatchAt(sections: seq<Section>, path: string, i: int)
  {
    && 0 <= i < |sections|
    && StartsWith(path, sections[i].href)
    && forall j :: 0 <= j < i ==> !StartsWith(path, sections[j].href)
  }

  /** The index of the entry `SECTIONS.find(({href}) => path.startsWith(href))`
      returns, if any. */
  function FirstMatch(sections: seq<Section>, path: string): (r: Option<nat>)
    ensures r.Some? ==> FirstMatchAt(sections, path, r.value)
    ensures r.None? ==> forall j :: 0 <= j < |sections| ==> !StartsWith(path, sections[j].href)
  {
    if |sections| == 0 then None
    else if StartsWith(path, sections[0].href) then Some(0)
    else
      match FirstMatch(sections[1..], path)
      case Some(i) => Some(i + 1)
      case None => None
  }

  /** The branch for paths under the API prefix (src/middleware.ts:24-37, 44). */
  function ApiDecision(qualifier: Option<string>, action: Option<string>, token: Option<Role>,
                       actions: ActionTable): Decision
  {
    if qualifier == Some("files") then Next
    else if qualifier == Some("mobile") then
      if token == Some(Employee) then Next else Json403
    else
      var q := PropertyKey(qualifier);
      if q !in actions then Error
      else
        var a := PropertyKey(action);
        if a !in actions[q] then Error
        else if HasRole(actions[q][a], token) then Next
        else Redirect(NotFound)
  }

  /** The branch for page paths (src/middleware.ts:39-44). */
  function PageDecision(path: string, token: Option<Role>, sections: seq<Section>): Decision
  {
    match FirstMatch(sections, path)
    case Some(i) => if HasRole(sections[i].authorizedRoles, token) then Next else Redirect(NotFound)
    case None => Redirect(NotFound)
  }

  /** The gate as written (src/middleware.ts:7-44). Without a session it
      passes nothing but the public pages and the files qualifier, and it
      throws only on API paths. */
  function Decide(path: string, token: Option<Role>, sections: seq<Section>, actions: ActionTable): (r: Decision)
    ensures r == Next && token.None? ==>
              path in PublicPages || (StartsWith(path, "/api") && ApiTarget(path).0 == Some("files"))
    ensures r == Error ==> StartsWith(path, "/api")
  {
    if path in PublicPages then
      if token.Some? then Redirect(Dashboard) else Next
    else if path == "/" then Redirect(Dashboard)
    else if StartsWith(path, "/api") then
      ApiDecision(ApiTarget(path).0, ApiTarget(path).1, token, actions)
    else PageDecision(path, token, sections)
  }

  /** An independent statement of when the gate lets a request through. */
  ghost predicate Permits(path: string, token: Option<Role>, sections: seq<Section>, actions: ActionTable)
  {
    if path in PublicPages then token.None?
    else if path == "/" then false
    else if StartsWith(path, "/api") then
      var (qualifier, action) := ApiTarget(path);
      var q := PropertyKey(qualifier);
      var a := PropertyKey(action);
      || qualifier == Some("files")
      || (qualifier == Some("mobile") && token == Some(Employee))
      || (&& qualifier != Some("files") && qualifier != Some("mobile")
          && q in actions && a in actions[q] && HasRole(actions[q][a], token))
    else
      exists i :: FirstMatchAt(sections, path, i) && HasRole(sections[i].authorizedRoles, token)
  }

  /** The gate passes a request exactly when the policy permits it. */
  lemma NextIffPermits(path: string, token: Option<Role>, sections: seq<Section>, actions: ActionTable)
    ensures Decide(path, token, sections, actions) == Next <==> Permits(path, token, sections, actions)
  {
  }

  /** The three public pages redirect a signed-in user to the dashboard and
      let anyone else through. */
  lemma PublicPagesDecision(path: string, token: Option<Role>, sections: seq<Section>, actions: ActionTable)
    requires path in PublicPages
    ensures Decide(path, token, sections, actions) == if token.Some? then Redirect(Dashboard) else Next
  {
  }

  /** The root path always redirects to the dashboard. */
  lemma RootRedirects(token: Option<Role>, sections: seq<Section>, actions: ActionTable)
    ensures Decide("/", token, sections, actions) == Redirect(Dashboard)
  {
  }

  /** A path under the API prefix is neither a public page nor the root. */
  lemma ApiPathIsNotPage(path: string)
    requires StartsWith(path, "/api")
    ensures path !in PublicPages && path != "/"
  {
    assert path[1] == 'a';
  }

  /** For `/<p>/<q>/<a><rest>` the qualifier is `q` and the action is `a`,
      whatever further segments `rest` holds. */
  lemma ApiTargetOf(p: string, q: string, a: string, rest: string)
    requires '/' !in p && '/' !in q && '/' !in a
    requires rest == [] || rest[0] == '/'
    ensures ApiTarget("/" + p + "/" + q + "/" + a + rest) == (Some(q), Some(a))
  {
    assert "/" + p + "/" + q + "/" + a + rest == "/" + p + "/" + q + "/" + (a + rest);
    SplitThreePieces(p, q, a + rest, '/');
    PieceBeforeSeparator(a, rest, '/');
  }

  /** Splitting `/p/q/tail` yields an empty piece, `p`, `q`, then the pieces of `tail`. */
  lemma SplitThreePieces(p: string, q: string, tail: string, sep: char)
    requires sep !in p && sep !in q
    ensures Split([sep] + p + [sep] + q + [sep] + tail, sep) == ["", p, q] + Split(tail, sep)
  {
    var s2 := q + [sep] + tail;
    var s1 := p + [sep] + s2;
    assert [sep] + p + [sep] + q + [sep] + tail == [] + [sep] + s1;
    SplitAfterPiece([], s1, sep);
    SplitAfterPiece(p, s2, sep);
    SplitAfterPiece(q, tail, sep);
  }

  /** The first piece of `x + y` is `x` when `x` has no separator and `y` is
      empty or starts with one. */
  lemma PieceBeforeSeparator(x: string, y: string, sep: char)
    requires sep !in x
    requires y == [] || y[0] == sep
    ensures Split(x + y, sep)[0] == x
  {
    if y == [] {
      assert x + y == x;
      SplitNoSeparator(x, sep);
    } else {
      assert x + y == x + [sep] + y[1..];
      SplitAfterPiece(x, y[1..], sep);
    }
  }

  /** Deeper segments are ignored: `/api/offers/activation/deactivate` names
      the qualifier `offers` and the action `activation`. */
  lemma DeepApiPath(path: string)
    requires path == "/api/offers/activation/deactivate"
    ensures ApiTarget(path) == (Some("offers"), Some("activation"))
  {
    ApiTargetOf("api", "offers", "activation", "/deactivate");
    assert "/" + "api" + "/" + "offers" + "/" + "activation" + "/deactivate" == path;
  }

  /** Files under the API prefix pass for every caller, signed in or not. */
  lemma FilesAlwaysPass(path: string, token: Option<Role>, sections: seq<Section>, actions: ActionTable)
    requires StartsWith(path, "/api") && ApiTarget(path).0 == Some("files")
    ensures Decide(path, token, sections, actions) == Next
  {
    ApiPathIsNotPage(path);
  }

  /** The mobile qualifier passes exactly the employee role and answers every
      other caller with a 403, never with a redirect. */
  lemma MobileEmployeeOnly(path: string, token: Option<Role>, sections: seq<Section>, actions: ActionTable)
    requires StartsWith(path, "/api") && ApiTarget(path).0 == Some("mobile")
    ensures Decide(path, token, sections, actions) == if token == Some(Employee) then Next else Json403
  {
    ApiPathIsNotPage(path);
  }

  /** Any other qualifier consults the action table: a present entry passes
      exactly the roles it lists and redirects everyone else to the not-found
      page; a missing entry makes the gate throw, and never passes. */
  lemma ApiActionDecision(path: string, token: Option<Role>, sections: seq<Section>, actions: ActionTable)
    requires StartsWith(path, "/api")
    requires ApiTarget(path).0 != Some("files") && ApiTarget(path).0 != Some("mobile")
    ensures var q := PropertyKey(ApiTarget(path).0);
            var a := PropertyKey(ApiTarget(path).1);
            Decide(path, token, sections, actions) ==
              if q in actions && a in actions[q] then
                if HasRole(actions[q][a], token) then Next else Redirect(NotFound)
              else Error
  {
    ApiPathIsNotPage(path);
  }

  /** A page path no entry's href prefixes is redirected to the not-found page. */
  lemma UnlistedPageNotFound(path: string, token: Option<Role>, sections: seq<Section>, actions: ActionTable)
    requires path !in PublicPages && path != "/" && !StartsWith(path, "/api")
    requires forall j :: 0 <= j < |sections| ==> !StartsWith(path, sections[j].href)
    ensures Decide(path, token, sections, actions) == Redirect(NotFound)
  {
  }

  /** A page path whose first matching entry does not list the caller's role
      is redirected to the not-found page, a missing session included. */
  lemma RefusedPageNotFound(path: string, token: Option<Role>, sections: seq<Section>, actions: ActionTable, i: int)
    requires path !in PublicPages && path != "/" && !StartsWith(path, "/api")
    requires FirstMatchAt(sections, path, i) && !HasRole(sections[i].authorizedRoles, token)
    ensures Decide(path, token, sections, actions) == Redirect(NotFound)
  {
    match FirstMatch(sections, path)
    case Some(j) => assert j == i;
    case None =>
  }

  /** The entries before and including the first match decide: appending
      further entries, overlapping or not, never changes a matched result. */
  lemma {:induction false} FirstMatchPrefix(s1: seq<Section>, s2: seq<Section>, path: string)
    requires exists i :: 0 <= i < |s1| && StartsWith(path, s1[i].href)
    ensures FirstMatch(s1 + s2, path) == FirstMatch(s1, path)
    decreases |s1|
  {
    if !StartsWith(path, s1[0].href) {
      var i :| 0 <= i < |s1| && StartsWith(path, s1[i].href);
      assert 0 <= i - 1 < |s1[1..]| && StartsWith(path, s1[1..][i - 1].href);
      FirstMatchPrefix(s1[1..], s2, path);
      assert (s1 + s2)[1..] == s1[1..] + s2;
    }
  }

  /** Later entries never affect the decision on a path an earlier entry matches. */
  lemma LaterSectionsIgnored(path: string, token: Option<Role>, s1: seq<Section>, s2: seq<Section>,
                             actions: ActionTable)
    requires exists i :: 0 <= i < |s1| && StartsWith(path, s1[i].href)
    ensures Decide(path, token, s1 + s2, actions) == Decide(path, token, s1, actions)
  {
    FirstMatchPrefix(s1, s2, path);
    match FirstMatch(s1, path)
    case Some(i) => assert (s1 + s2)[i] == s1[i];
    case None =>
  }

  /** With a session, anything outside the public pages and the files
      qualifier passes only for a role the relevant list names. */
  lemma NextNeedsListedRole(path: string, role: Role, sections: seq<Section>, actions: ActionTable)
    requires Decide(path, Some(role), sections, actions) == Next
    requires path !in PublicPages
    requires !(StartsWith(path, "/api") && ApiTarget(path).0 == Some("files"))
    ensures StartsWith(path, "/api") ==>
              var q := PropertyKey(ApiTarget(path).0);
              var a := PropertyKey(ApiTarget(path).1);
              if ApiTarget(path).0 == Some("mobile") then role == Employee
              else q in actions && a in actions[q] && role in actions[q][a]
    ensures !StartsWith(path, "/api") ==>
              exists i :: FirstMatchAt(sections, path, i) && role in sections[i].authorizedRoles
  {
  }

  // ---------------------------------------------------------------------
  // The route matcher (src/middleware.ts:53)

  /** The alternatives of the matcher's negative lookahead, in order. */
  const ExcludedPrefixes: seq<string> := [
    "_next", "static", "favicon.ico", "404", "403", "500", "login", "logout", "img", "files",
    "api/files", "api/auth", "api/mobile", "api/validation", "forgot-password",
    "api/security/forgot-password", "reset-password", "api/security/reset-password"]

  /** `pattern` matches at the start of `s`, a `.` in the pattern standing for
      any character as it does in a regular expression. */
  predicate PatternPrefix(pattern: string, s: string)
  {
    |pattern| <= |s| && forall i :: 0 <= i < |pattern| ==> pattern[i] == '.' || pattern[i] == s[i]
  }

  /** The gate runs for a path exactly when, after its leading `/`, none of
      the excluded alternatives matches. */
  predicate Matched(path: string)
  {
    && |path| >= 1 && path[0] == '/'
    && forall k :: 0 <= k < |ExcludedPrefixes| ==> !PatternPrefix(ExcludedPrefixes[k], path[1..])
  }

  /** The public pages never reach the gate, so its first branch is dead. */
  lemma MatcherExcludesPublicPages(path: string)
    requires path in PublicPages
    ensures !Matched(path)
  {
    if path == "/login" {
      assert PatternPrefix(ExcludedPrefixes[6], path[1..]);
    } else if path == "/forgot-password" {
      assert PatternPrefix(ExcludedPrefixes[14], path[1..]);
    } else {
      assert PatternPrefix(ExcludedPrefixes[16], path[1..]);
    }
  }

  /** The exclusion is by prefix: `/loginx` and `/4040` never reach the gate either. */
  lemma MatcherExcludesByPrefix()
    ensures !Matched("/loginx") && !Matched("/4040")
  {
    assert PatternPrefix(ExcludedPrefixes[6], "/loginx"[1..]);
    assert PatternPrefix(ExcludedPrefixes[3], "/4040"[1..]);
  }

  /** Every alternative other than `favicon.ico` is a literal: a path that
      continues `/` with it never reaches the gate. */
  lemma MatcherExcludesLiteralPrefix(path: string, k: nat)
    requires k < |ExcludedPrefixes| && k != 2
    requires StartsWith(path, "/" + ExcludedPrefixes[k])
    ensures !Matched(path)
  {
    var pat := ExcludedPrefixes[k];
    forall i | 0 <= i < |pat|
      ensures pat[i] == path[1..][i]
    {
      assert path[i + 1] == ("/" + pat)[i + 1];
    }
    assert PatternPrefix(pat, path[1..]);
  }

  /** The unescaped `.` in `favicon.ico` matches any character, so a path
      such as `/faviconXico` does not reach the gate either. */
  lemma MatcherDotIsWildcard(path: string)
    requires path == "/faviconXico"
    ensures !Matched(path)
    ensures !StartsWith(path, "/favicon.ico")
  {
    assert PatternPrefix(ExcludedPrefixes[2], path[1..]);
    assert path[8] != "/favicon.ico"[8];
  }

  /** The root path reaches the gate. */
  lemma MatcherAdmitsRoot()
    ensures Matched("/")
  {
  }

  /** A path whose first character after the `/` begins none of the excluded
      alternatives reaches the gate. */
  lemma MatcherAdmitsByFirstChar(path: string)
    requires |path| >= 2 && path[0] == '/' && path[1] !in "_sf45lira"
    ensures Matched(path)
  {
  }

  /** Under `/api/`, the files and mobile qualifiers never reach the gate:
      the matcher excludes them by prefix. */
  lemma MatcherExcludesApiFilesAndMobile(path: string)
    requires Matched(path) && StartsWith(path, "/api/")
    ensures ApiTarget(path).0 != Some("files") && ApiTarget(path).0 != Some("mobile")
  {
    var rest := path[5..];
    assert path == [] + ['/'] + ("api" + ['/'] + rest);
    SplitAfterPiece([], "api" + ['/'] + rest, '/');
    SplitAfterPiece("api", rest, '/');
    var q := Split(rest, '/')[0];
    assert ApiTarget(path).0 == Some(q);
    if q == "files" {
      assert path[1..][..9] == "api/files";
      assert PatternPrefix(ExcludedPrefixes[10], path[1..]);
    }
    if q == "mobile" {
      assert path[1..][..10] == "api/mobile";
      assert PatternPrefix(ExcludedPrefixes[12], path[1..]);
    }
  }

  /** A path that starts `/api` but not `/api/`, `/api` itself included,
      always reaches the gate. */
  lemma MatcherAdmitsApiWithoutSlash(path: string)
    requires StartsWith(path, "/api") && (|path| == 4 || path[4] != '/')
    ensures Matched(path)
  {
    forall k | 0 <= k < |ExcludedPrefixes|
      ensures !PatternPrefix(ExcludedPrefixes[k], path[1..])
    {
      var pat := ExcludedPrefixes[k];
      if pat[0] == 'a' {
        assert |pat| > 4 && pat[3] == '/';
        if |path| > 4 {
          assert path[1..][3] == path[4];
        }
      } else {
        assert path[1..][0] == 'a';
      }
    }
  }

  /** `/api` itself reaches the gate and, its qualifier being `undefined`,
      makes the gate throw unless the action table has an "undefined" key. */
  lemma ApiRootThrows(path: string, token: Option<Role>, sections: seq<Section>, actions: ActionTable)
    requires path == "/api" && "undefined" !in actions
    ensures Matched(path) && Decide(path, token, sections, actions) == Error
  {
    MatcherAdmitsApiWithoutSlash(path);
    assert path == [] + ['/'] + ("api" + []);
    SplitAfterPiece([], "api", '/');
    SplitNoSeparator("api", '/');
    assert Split(path, '/') == ["", "api"];
    ApiPathIsNotPage(path);
  }

  /** The mobile qualifier is not dead either: `/apix/mobile/a` reaches the
      gate and is answered with a 403 for every caller but an employee. */
  lemma MobileLookalikeReachable(path: string, token: Option<Role>, sections: seq<Section>, actions: ActionTable)
    requires path == "/apix/mobile/a" && token != Some(Employee)
    ensures Matched(path) && Decide(path, token, sections, actions) == Json403
  {
    ApiTargetOf("apix", "mobile", "a", "");
    assert "/" + "apix" + "/" + "mobile" + "/" + "a" + "" == path;
    MatcherAdmitsApiWithoutSlash(path);
    MobileEmployeeOnly(path, token, sections, actions);
  }

  /** Of the requests that reach the gate, one without a session passes only
      on a path that starts `/api` but not `/api/` and whose third segment is
      `files`. */
  lemma ReachableWithoutToken(path: string, sections: seq<Section>, actions: ActionTable)
    requires Matched(path) && Decide(path, None, sections, actions) == Next
    ensures StartsWith(path, "/api") && !StartsWith(path, "/api/")
    ensures ApiTarget(path).0 == Some("files")
  {
    if path in PublicPages {
      MatcherExcludesPublicPages(path);
    }
    if StartsWith(path, "/api/") {
      MatcherExcludesApiFilesAndMobile(path);
    }
  }

  /** Such a path exists: `/apix/files/a` reaches the gate and passes with no session. */
  lemma UnauthenticatedApiLookalike(path: string, sections: seq<Section>, actions: ActionTable)
    requires path == "/apix/files/a"
    ensures Matched(path) && Decide(path, None, sections, actions) == Next
  {
    ApiTargetOf("apix", "files", "a", "");
    assert "/" + "apix" + "/" + "files" + "/" + "a" + "" == path;
    MatcherAdmitsApiWithoutSlash(path);
    FilesAlwaysPass(path, None, sections, actions);
  }

  // ---------------------------------------------------------------------
  // Failing closed on a missing action entry

  /** The lookup the gate needs: the listed roles, or no role at all when the
      table has no entry for the call. */
  function AuthorizedForAction(actions: ActionTable, qualifier: Option<string>, action: Option<string>): (roles: seq<Role>)
    ensures forall r :: r in roles <==>
              var q := PropertyKey(qualifier);
              var a := PropertyKey(action);
              q in actions && a in actions[q] && r in actions[q][a]
  {
    var q := PropertyKey(qualifier);
    var a := PropertyKey(action);
    if q in actions && a in actions[q] then actions[q][a] else []
  }

  /** The gate with the action lookup failing closed: a missing entry is a
      denial like any other. */
  function DecideFailClosed(path: string, token: Option<Role>, sections: seq<Section>, actions: ActionTable): (r: Decision)
    ensures r != Error
    ensures r == Next && token.None? ==>
              path in PublicPages || (StartsWith(path, "/api") && ApiTarget(path).0 == Some("files"))
  {
    if path in PublicPages then
      if token.Some? then Redirect(Dashboard) else Next
    else if path == "/" then Redirect(Dashboard)
    else if StartsWith(path, "/api") then
      var (qualifier, action) := ApiTarget(path);
      if qualifier == Some("files") then Next
      else if qualifier == Some("mobile") then
        if token == Some(Employee) then Next else Json403
      else if HasRole(AuthorizedForAction(actions, qualifier, action), token) then Next
      else Redirect(NotFound)
    else PageDecision(path, token, sections)
  }

  /** As written, a call the action table does not list makes the gate throw
      rather than deny. */
  lemma MissingEntryThrows(path: string, token: Option<Role>, sections: seq<Section>, actions: ActionTable)
    requires StartsWith(path, "/api")
    requires ApiTarget(path).0 != Some("files") && ApiTarget(path).0 != Some("mobile")
    requires PropertyKey(ApiTarget(path).0) !in actions
    ensures Decide(path, token, sections, actions) == Error
  {
    ApiPathIsNotPage(path);
  }

  /** A concrete instance: `/api/reports/export` with no `reports` entry. */
  lemma MissingEntryExample(path: string, token: Option<Role>, sections: seq<Section>)
    requires path == "/api/reports/export"
    ensures Decide(path, token, sections, map[]) == Error
  {
    ApiTargetOf("api", "reports", "export", "");
    assert "/" + "api" + "/" + "reports" + "/" + "export" + "" == path;
    MissingEntryThrows(path, token, sections, map[]);
  }

  /** Failing closed agrees with the gate wherever the gate does not throw, and denies with the not-found redirect where it does. */
  lemma FailClosedRefinesGate(path: string, token: Option<Role>, sections: seq<Section>, actions: ActionTable)
    ensures Decide(path, token, sections, actions) != Error ==>
              DecideFailClosed(path, token, sections, actions) == Decide(path, token, sections, actions)
    ensures Decide(path, token, sections, actions) == Error ==>
              DecideFailClosed(path, token, sections, actions) == Redirect(NotFound)
  {
  }

}
