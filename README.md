# Tandeem request authorization, modelled in Dafny

Tandeem is an administrative web application for offers, contracts,
publications and employees. This project models the three pieces of its
code that make decisions:

- **The authorization gate** of `src/middleware.ts`. It runs before every
  page and API handler. It takes the request path, the session token
  (absent, or carrying a `Role`), the section table and the action table,
  and returns a `Decision`:
  - `Next`: let the request through;
  - `Redirect("/dashboard")` or `Redirect("/404")`;
  - `Json403`;
  - `Error`: the gate throws a TypeError.
  The route matcher that decides which paths reach the gate at all is a
  predicate on paths.
- **The navigation sidebar** of `src/common/components/global/Main.tsx`:
  - which sections it lists for a role;
  - which link it marks active;
  - the collapse flag that the mouse toggles, modelled as a small class.
- **The form-action wrapper** `handle` of `src/apiMiddleware.ts`:
  - it reduces uploaded multi-file fields to their first file;
  - it runs the action;
  - it redirects to a base URL, then `?`, then an optional `_notif` query
    that reports the action's outcome.

The section table and the action table are defined in files that are not part
of this model. Both are parameters. The role enumeration is a datatype with
the three roles the code names, plus `OtherRole` for any further value.

Files:
- `wrappers.dfy`: `Option`.
- `security.dfy`: `Role`, `Section`.
- `strings.dfy`: JavaScript `startsWith` and `split`, with their round-trip lemmas.
- `middleware.dfy`: the gate, the matcher, and the fail-closed variant.
- `sidebar.dfy`: the sidebar, plus the lemmas relating its links to the gate.
- `api_middleware.dfy`: `handle`.

What the proofs establish:
- The gate passes a request exactly when `Permits` holds. `Permits` is an
  independent statement of the policy, with first-match stated declaratively.
  Separate lemmas pin down the other results: which requests get
  `Redirect("/dashboard")`, `Redirect("/404")`, `Json403` or `Error`.
- Without a session, the gate passes only the public pages and the `files`
  qualifier.
- Once the matcher is taken into account, the public-page branch never runs.
  No path under `/api/` reaches the `files` or `mobile` branch. Those
  branches are still reached by paths that start with `/api` but not with
  `/api/`, such as `/apix/files/a` and `/apix/mobile/a`. The only
  unauthenticated requests that reach the gate and pass are such paths whose
  third segment is `files`. The path `/api` itself reaches the gate, and the
  gate throws on it.
- Take a sidebar link whose href is neither `/` nor under `/api`, in a table
  where no earlier section's href is a prefix of a later one that allows more
  roles. Either the matcher keeps the link away from the gate, or the gate
  passes it. Without that condition a listed link can be refused: `/offers`
  shadows `/offers/mine` in a concrete table.

Points where the code behaves differently from what a reader might expect:
- A missing action-table entry makes the gate throw instead of refusing the
  call. See Findings.
- The 403 answer carries the JSON body `""`, not an empty body.
- The gate has a public-page branch at `src/middleware.ts:9-19`, but the
  matcher at `src/middleware.ts:53` keeps those paths away from the gate, so
  in deployment the branch never runs.

## Model

| member | source | states |
|---|---|---|
| Strings.StartsWithIff | src/middleware.ts:23 | `startsWith(prefix)` holds exactly when the string is the prefix followed by some rest. |
| Strings.Split | src/middleware.ts:24 | `split('/')` gives at least one piece, and no piece contains the separator. The first piece is a prefix of the string, followed by the separator or by the end of the string. |
| Strings.JoinSplit | src/middleware.ts:24 | Joining the pieces of a split with the separator gives back the original string. |
| Strings.SplitJoin | src/middleware.ts:24 | Splitting a join of separator-free pieces gives back exactly those pieces. |
| Middleware.FirstMatch | src/middleware.ts:39 | `SECTIONS.find` by href prefix returns the first entry whose href prefixes the path, or nothing when no entry does. |
| Middleware.Decide | src/middleware.ts:7-44 | Without a token the gate returns `Next` only for the public pages and the `files` qualifier. It throws only on API paths. |
| Middleware.NextIffPermits | src/middleware.ts:7-44 | The gate returns `Next` exactly when the declarative policy `Permits` holds. This covers both directions for the public pages, the root, the files, mobile and action-table branches, and the first-match page branch. |
| Middleware.PublicPagesDecision | src/middleware.ts:9-19 | `/login`, `/forgot-password` and `/reset-password` redirect to `/dashboard` when a token is present, and pass when it is absent. |
| Middleware.RootRedirects | src/middleware.ts:20-22 | `/` redirects to `/dashboard` whatever the token. |
| Middleware.ApiTarget | src/middleware.ts:24 | The qualifier and the action contain no `/`, and an action is present only when a qualifier is. |
| Middleware.ApiTargetOf | src/middleware.ts:23-24 | For `/<p>/<q>/<a><rest>`, the qualifier is `q` and the action is `a`, whatever the first segment is and whatever further segments follow. |
| Middleware.DeepApiPath | src/middleware.ts:24 | `/api/offers/activation/deactivate` yields the qualifier `offers` and the action `activation`. |
| Middleware.FilesAlwaysPass | src/middleware.ts:25-27 | Any path under the `/api` prefix with qualifier `files` passes, with or without a token. |
| Middleware.MobileEmployeeOnly | src/middleware.ts:28-33 | Qualifier `mobile` passes exactly the `Employee` role. Every other caller gets `Json403`, never a redirect. |
| Middleware.ApiActionDecision | src/middleware.ts:34-37 | For any other qualifier, a present entry passes exactly the roles it lists and redirects everyone else to `/404`. A missing entry gives `Error`, never `Next`. |
| Middleware.UnlistedPageNotFound | src/middleware.ts:39-44 | A page path that no section href prefixes is redirected to `/404`. |
| Middleware.RefusedPageNotFound | src/middleware.ts:39-44 | A page path whose first matching section does not list the token's role is redirected to `/404`, whatever later sections say. |
| Middleware.FirstMatchPrefix | src/middleware.ts:39 | Appending entries after a table that already has a match does not change which entry `find` returns. |
| Middleware.LaterSectionsIgnored | src/middleware.ts:39-42 | The gate's decision is the same whether or not later entries are appended after a table that already matches the path. |
| Middleware.NextNeedsListedRole | src/middleware.ts:25-42 | Outside the public pages and the `files` qualifier, `Next` is given only when the token's role is in the relevant list: `Employee` for mobile, the action entry for other API calls, or the first matching section. |
| Middleware.MatcherExcludesPublicPages | src/middleware.ts:53 | The three public pages never reach the gate. |
| Middleware.MatcherExcludesByPrefix | src/middleware.ts:53 | Exclusion is by prefix, so `/loginx` and `/4040` are excluded as well. |
| Middleware.MatcherExcludesLiteralPrefix | src/middleware.ts:53 | Every alternative except `favicon.ico` is literal: a path that starts with `/` and that alternative never reaches the gate. |
| Middleware.MatcherDotIsWildcard | src/middleware.ts:53 | The unescaped `.` in `favicon.ico` matches any character, so `/faviconXico` is excluded too, though it does not start with `/favicon.ico`. |
| Middleware.MatcherAdmitsRoot | src/middleware.ts:53 | `/` reaches the gate. |
| Middleware.MatcherAdmitsByFirstChar | src/middleware.ts:53 | A path whose first character after `/` begins none of the excluded alternatives reaches the gate. |
| Middleware.MatcherExcludesApiFilesAndMobile | src/middleware.ts:53 | Under `/api/`, no path with qualifier `files` or `mobile` reaches the gate. |
| Middleware.MatcherAdmitsApiWithoutSlash | src/middleware.ts:53 | Every path that starts with `/api` and does not continue with `/` reaches the gate. This includes `/api` itself. |
| Middleware.ApiRootThrows | src/middleware.ts:23-35 | `/api` reaches the gate. It has no qualifier, so the lookup reads the `undefined` key, and when the action table has no such key the gate throws. |
| Middleware.MobileLookalikeReachable | src/middleware.ts:28-33 | `/apix/mobile/a` reaches the gate, and every caller except an `Employee` gets `Json403`. |
| Middleware.ReachableWithoutToken | src/middleware.ts:23-27 | Among matched paths, a request without a token passes only when the path starts with `/api` but not `/api/` and its qualifier is `files`. |
| Middleware.UnauthenticatedApiLookalike | src/middleware.ts:23-27 | `/apix/files/a` reaches the gate and passes without a token. |
| Middleware.MissingEntryThrows | src/middleware.ts:34-35 | As written, an API call whose qualifier is missing from the action table makes the gate throw. |
| Middleware.MissingEntryExample | src/middleware.ts:34-35 | `/api/reports/export` with an empty action table gives `Error` for every token. |
| Middleware.DecideFailClosed | src/middleware.ts:34-37 | The corrected gate never throws and still passes nothing without a token except the public pages and the `files` qualifier. |
| Middleware.FailClosedRefinesGate | src/middleware.ts:34-37 | The corrected gate agrees with the gate wherever the gate does not throw. Where the gate throws, the corrected gate redirects to `/404`. |
| Sidebar.Filter | src/common/components/global/Main.tsx:16 | `filter` keeps only elements that satisfy the predicate, each of them taken from the input. |
| Sidebar.FilterMultiplicity | src/common/components/global/Main.tsx:16 | `filter` keeps every copy of a kept element and drops every copy of the others. |
| Sidebar.FilterMembership | src/common/components/global/Main.tsx:16 | An element is in the filtered list exactly when it is in the input and the predicate holds of it. |
| Sidebar.AuthorizedSections | src/common/components/global/Main.tsx:15-19 | Every section kept authorizes the role and comes from the table. |
| Sidebar.SidebarSections | src/common/components/global/Main.tsx:36-37 | Every listed section authorizes the role and is flagged `showInSidebar`. |
| Sidebar.ListedIff | src/common/components/global/Main.tsx:15-37 | A section is listed exactly when it is in the table, its roles include the user's role, and it is flagged `showInSidebar`. |
| Sidebar.ListedInOrder | src/common/components/global/Main.tsx:16-37 | The listed sections are a subsequence of the table and keep its order. |
| Sidebar.Links | src/common/components/global/Main.tsx:36-51 | One link per listed section, in order, with its name and href. A link is active exactly when its name equals the current section. Labels are visible exactly when the sidebar is not collapsed. |
| Sidebar.SidebarState.constructor | src/common/components/global/Main.tsx:20 | The sidebar starts collapsed. |
| Sidebar.SidebarState.MouseEnter | src/common/components/global/Main.tsx:27 | Mouse-enter expands the sidebar. |
| Sidebar.SidebarState.MouseLeave | src/common/components/global/Main.tsx:28 | Mouse-leave collapses the sidebar. |
| Sidebar.SidebarState.Logo | src/common/components/global/Main.tsx:32 | The compact logo is shown exactly while the sidebar is collapsed. Otherwise the full logo is shown. |
| Sidebar.ListedSectionReachable | src/middleware.ts:39-42 | Under `NoShadowing`, a listed link whose href is neither `/` nor under `/api` is either kept away from the gate by the matcher or passed by it. |
| Sidebar.ShadowedSectionRefused | src/middleware.ts:39-42 | Without `NoShadowing` the link can fail: with `/offers` for `Tandeem` before `/offers/mine` for `Customer`, the sidebar lists `/offers/mine` to a customer and the gate redirects that customer to `/404`. |
| ApiMiddleware.Truthy | src/apiMiddleware.ts:26 | Exactly `undefined`, `null`, `false`, `0` and `""` are falsy. |
| ApiMiddleware.ToText | src/apiMiddleware.ts:26 | `String(v)` is empty only for the empty string and returns a string unchanged. For an integer it gives a `-` exactly when the integer is negative, then decimal digits without leading zeros that read back as its magnitude. |
| ApiMiddleware.QueryString | src/apiMiddleware.ts:32 | The query text is empty exactly when there is no `_notif` pair. Otherwise it is `_notif=` followed by the encoded text. |
| ApiMiddleware.RedirectBase | src/apiMiddleware.ts:32 | The base is `redirectTo` when it is given. Otherwise it is the referer cut before its first `?`, which is a prefix of the referer and contains no `?`. With neither, there is no base. |
| ApiMiddleware.NotifFor | src/apiMiddleware.ts:24-30 | A truthy result gives the single pair `_notif=<result>`, and a falsy result gives no query. A thrown action gives `_notif=unexpectedError`. |
| ApiMiddleware.HandleAction | src/apiMiddleware.ts:22-33 | A redirect is issued exactly when there is a `redirectTo` or a referer. It is the base, then `?`, then the outcome's query, so an empty query leaves a trailing `?`. |
| ApiMiddleware.BackToReferer | src/apiMiddleware.ts:32 | Cutting a redirect back to the referer at its first `?` gives the referer cut the same way. What follows that `?` is the query. |
| ApiMiddleware.FirstFiles | src/apiMiddleware.ts:39-45 | The reduced object has exactly the uploaded field names as keys. |
| ApiMiddleware.FirstFileKept | src/apiMiddleware.ts:41-45 | Each field maps to `toBlob` of its first file, and any further files in that field are dropped. |
| ApiMiddleware.CollectFirstFiles | src/apiMiddleware.ts:39-45 | The `reduce` loop builds exactly `FirstFiles` of the uploaded entries. |
| ApiMiddleware.Handle | src/apiMiddleware.ts:14-49 | Without a field list the action receives no files. With one, it receives each field's first file, even when the list is empty, since an empty array is truthy. The action runs once, and its outcome decides the single redirect. |

## Findings

| source | as written | input that shows it | evidently intended | confidence | as-written member | corrected member |
|---|---|---|---|---|---|---|
| src/middleware.ts:34-35 | `ACTIONS[qualifier][action]` is read without checking that the entry exists. When the qualifier is missing, indexing `undefined` at line 34 throws a TypeError. When the qualifier is present but the action is not, `.includes` on `undefined` at line 35 throws | `/api/reports/export` with no `reports` entry in the action table | treat the call as one no role may make, and redirect to `/404` like any other refusal | medium, not executed | Middleware.MissingEntryThrows | Middleware.DecideFailClosed |

## Left out

- Session decoding by next-auth (`withAuth`, `getToken`) and its own redirect of signed-out users are not modelled. The token is `Option<Role>`, and a token without a role is not modelled.
- Building `NextResponse` objects and absolute URLs from `req.url` is not modelled. A decision carries only its redirect path.
- Inherited keys of the action table, such as `constructor` or `__proto__`, are not modelled. The model treats the table as a plain map, so such keys count as missing.
- Next.js's own compilation of the matcher is reduced to a prefix test after the leading `/`, with `.` as a wildcard and case-sensitive comparison. Not modelled: path-to-regexp flags, locale and `_next/data` prefixes, and a trailing `.json`.
- Multer's multipart parsing, `getMulterFields`, and Multer's error callback are not modelled. The uploaded fields are an input, each with at least one file.
- `toBlob` and the form encoding done by `URLSearchParams` are function parameters, because their code is not part of this model.
- The action is a function from the files to its outcome. The request body, the `useUser` callback and the action's side effects are not modelled. Awaiting is one sequential step.
- `console.error` logging of a thrown action is not modelled.
- Action results are not modelled beyond strings, booleans, `null`, `undefined`, plain objects, and integers within ±9007199254740991 (`SafeInt`). Not modelled: larger numbers, which `String` may print in exponent notation; NaN; fractions; `-0`; BigInt; arrays; functions; and Symbols, for which `URLSearchParams` would throw.
- The rendering of icons, the title bar, the page body, and the `useMemo` cache are not modelled. The listed sections are a function of the role alone, so the cache does not change them.
- The gate keeps no state between requests. Calling it twice on the same input gives the same decision because `Decide` is a function, so no separate lemma states this.
