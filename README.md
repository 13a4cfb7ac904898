# Access control and account forms of the TFC submission system

This project models the decision logic of the web application through which
students submit final-course works ("TFCs") and coordinators review them. The
application is mostly screens over a hosted database. Three pieces decide
something on their own, and they are what is modelled here:

- **The request middleware** (`lib/supabase/middleware.ts`). On every request
  it decides one of three things: redirect to the login page, redirect to one
  of `/`, `/dashboard` or `/estudante`, or let the request through. The
  decision depends on the path, on whether a user is signed in, and on the
  `nivel_acesso` of that user's profile. The middleware also hands the auth
  client a cookie adapter (`get`, `set`, `remove`). A path matcher decides
  which requests the middleware runs on at all.
- **The sign-up form's submit handler** (`components/sign-up-form.tsx`). It
  runs the password checks in a fixed order. It then makes the sign-up
  request, whose display name defaults to the part of the email before `@`.
  It inserts a fallback profile when the database trigger left none, redirects
  to the login page, and translates errors into Portuguese messages.
- **The login form's submit handler** (`components/login-form.tsx`). It signs
  in and looks up the profile. A missing profile is created, and a failed
  creation signs the user out. An inactive account is signed out. An active
  account is sent on by role. Errors are translated into Portuguese messages.

Remote calls (`getUser`, `signUp`, `signInWithPassword`, `.from(...)` selects
and inserts, `signOut`) are not modelled as services. Their replies are
parameters: `Js.Reply` resolves to a value or rejects with a thrown value.
Each handler records the requests it issued, in order, in a `calls` field of
type `seq<Backend.Call>`. `router.push` is recorded in a `redirect` field.

Layout:

- `js.dfy`, module `Js`: optional values, thrown values, replies, and the
  string builtins the code relies on. These are `startsWith`, `endsWith`,
  `includes` and `split('@')[0]`. `Includes` is proved equal to the textbook
  substring definition. `SplitHead` is proved to be exactly "everything
  before the first separator".
- `routes.dfy`, module `Routes`: the four pages the middleware and the
  forms send users to.
- `backend.dfy`, module `Backend`: the request shapes, the profile row and the
  auth and query replies.
- `middleware.dfy`, module `Middleware`: `Decide`, the `CookieAdapter` class
  and the matcher `Matches`.
- `sign_up_form.dfy`, module `SignUpForm`: the `SignUpForm` class and the pure
  functions its handler is proved against.
- `login_form.dfy`, module `LoginForm`: the `LoginForm` class and the pure
  functions its handler is proved against.

Each handler is an imperative method (`HandleSignUp`, `HandleLogin`) that
mirrors the source step by step. Its postcondition ties the new state of the
form to `Submit`, a pure function describing what the `try` block does: the
requests issued, the value thrown, and the redirect. The properties of the
flows are proved as lemmas about `Submit`.

Behaviour of the source that the model keeps as written:

- The coordinator-area guard tests the prefix `/dashbord`, not `/dashboard`.
  So `/dashboard` and everything below it is never guarded
  (`Middleware.DashboardNeverGuarded`). Only paths with the misspelled prefix
  are.
- The login form reads and writes the table `perfil_usuario`. The sign-up form
  and the middleware use `perfis_usuario`. The model keeps the two table names
  apart (`LoginForm.ProfileTable`, `SignUpForm.ProfileTable`).
- In the matcher, the `.` in `favicon.ico` is unescaped. It matches any
  character other than a line terminator, so `/faviconXico` is skipped too
  (`Middleware.FaviconDotIsWildcard`).
- Each `set` or `remove` of the cookie adapter replaces `response` with a fresh
  one. That response carries only the cookie just written, so the response
  holds only the adapter's last write.
- The login lookup's error is ignored: only the missing row is tested. The
  sign-up fallback insert, by contrast, needs both no row and no error.
- A failed fallback insert at sign-up is only logged. The redirect to the
  login page still happens.
- If the `signOut` request itself rejects, the value it rejects with reaches
  the `catch` block in place of the error the code was about to throw.

## Model

| member | source | states |
|---|---|---|
| `Js.MissingCharacter` | components/login-form.tsx:126-128 | a message lacking some character of a pattern does not include the pattern |
| `Js.IncludesIff` | components/sign-up-form.tsx:117-121 | `includes` holds exactly when the pattern occurs at some position of the message |
| `Js.IncludesInContext` | components/login-form.tsx:126-128 | a message that contains a pattern anywhere includes it, whatever text surrounds it |
| `Js.SplitHead` | components/sign-up-form.tsx:60 | `split('@')[0]` is a prefix of the string without `@`, and it stops either at the end or just before an `@` |
| `Js.SplitHeadUnique` | components/sign-up-form.tsx:60 | those three facts determine `split('@')[0]` uniquely |
| `Js.SplitHeadCases` | components/sign-up-form.tsx:60 | with no `@` the whole string is returned; with one, a strictly shorter prefix |
| `Middleware.Decide` | lib/supabase/middleware.ts:58-100 | the rules in order: a `/dashbord` path with no user goes to `/auth/login`; a `/dashbord` path whose user has no admin level goes to `/`; an auth page with a user goes to `/dashboard` for an admin, else to `/estudante`; anything else passes. The contract states that every redirect goes to one of those four pages, and only from a `/dashbord` path or from an auth page with a signed-in user |
| `Middleware.LoginRedirectIff` | lib/supabase/middleware.ts:62-66 | a request is sent to `/auth/login` exactly when its path starts with `/dashbord` and no user is signed in |
| `Middleware.HomeRedirectIff` | lib/supabase/middleware.ts:69-78 | a request is sent to `/` exactly when its path starts with `/dashbord`, a user is signed in, and there is no profile or its level is not `admin` |
| `Middleware.AdminOnGuardedPathPasses` | lib/supabase/middleware.ts:62-79 | an admin on a `/dashbord` path passes through |
| `Middleware.UnguardedPathPasses` | lib/supabase/middleware.ts:62-100 | a path under neither guarded prefix passes through for every user and level |
| `Middleware.DashboardNeverGuarded` | lib/supabase/middleware.ts:62 | every path starting with `/dashboard` passes through, signed in or not, whatever the level |
| `Middleware.SignedInOnAuthPageRedirectedByRole` | lib/supabase/middleware.ts:82-96 | a signed-in user on `/auth/login` or `/auth/sign-up` goes to `/dashboard` if admin, otherwise to `/estudante`, including with no profile |
| `Middleware.AnonymousOnAuthPagePasses` | lib/supabase/middleware.ts:82-100 | a visitor without a session on an auth page passes through |
| `Middleware.GuardedFamiliesDisjoint` | lib/supabase/middleware.ts:62-83 | no path starts with both `/dashbord` and an auth prefix, so at most one rule fires |
| `Middleware.PassesIff` | lib/supabase/middleware.ts:58-100 | a request passes exactly when it is not on a guarded path without a signed-in admin, and not on an auth page with a signed-in user |
| `Middleware.CookieAdapter.constructor` | lib/supabase/middleware.ts:5-10 | the adapter starts from the request's cookies and a response without cookies |
| `Middleware.CookieAdapter.Get` | lib/supabase/middleware.ts:17-19 | `get` returns the request cookie's value, or nothing when there is no cookie of that name |
| `Middleware.CookieAdapter.Set` | lib/supabase/middleware.ts:20-36 | `set` overwrites that one request cookie, and the response is replaced by one carrying only that cookie |
| `Middleware.CookieAdapter.Remove` | lib/supabase/middleware.ts:37-53 | `remove` writes the empty value under that name, and the response is replaced by one carrying only that cookie |
| `Middleware.AdapterRoundTrip` | lib/supabase/middleware.ts:16-54 | `get` after `set` returns the value written, `get` after `remove` returns `""`, other names read as before, and the response holds only the last write |
| `Middleware.Excluded` | lib/supabase/middleware.ts:111 | the negative lookahead: the remainder after `/` starts with `_next/static`, `_next/image` or `favicon`, any character, `ico`, or it has no line terminator and ends in `.svg`, `.png`, `.jpg`, `.jpeg`, `.gif` or `.webp` |
| `Middleware.Matches` | lib/supabase/middleware.ts:111 | the anchored matcher `/((?!…).*)`: the path starts with `/`, the remainder has no line terminator, and the lookahead does not exclude it |
| `Middleware.ImageAlternativeIff` | lib/supabase/middleware.ts:111 | the last alternative of the regex (a dot and an image extension at the very end) holds exactly when the text has no line terminator and ends in one of those extensions |
| `Middleware.BuildAssetsSkipped` | lib/supabase/middleware.ts:111 | paths whose remainder after `/` starts with `_next/static` or `_next/image` are not matched |
| `Middleware.ImageFilesSkipped` | lib/supabase/middleware.ts:111 | every path ending in `.svg`, `.png`, `.jpg`, `.jpeg`, `.gif` or `.webp` is not matched, whatever its stem |
| `Middleware.FaviconSkipped` | lib/supabase/middleware.ts:111 | every path whose remainder starts with `favicon`, any one character other than a line terminator, and `ico` is not matched, whatever follows (`/favicon.ico.map`, `/favicon.icon`) |
| `Middleware.FaviconDotIsWildcard` | lib/supabase/middleware.ts:111 | `/favicon.ico` is not matched, and neither is `/faviconXico` |
| `Middleware.PlainPathMatched` | lib/supabase/middleware.ts:111 | a path whose remainder contains no line terminator, starts with neither `_` nor `f`, and ends in none of `g`, `f`, `p` is matched |
| `Middleware.PagesMatched` | lib/supabase/middleware.ts:111 | `/` and `/dashboard` are matched |
| `SignUpForm.PasswordProblem` | components/sign-up-form.tsx:39-49 | the checks pass exactly for two equal passwords of at least 6 characters; a failed check reports either the mismatch or the length message |
| `SignUpForm.PasswordProblemCases` | components/sign-up-form.tsx:39-49 | the checks pass exactly for equal passwords of at least 6 characters; a mismatch is reported first, whatever the length |
| `Backend.NewProfile` | components/sign-up-form.tsx:95-100 | the fallback profile row (also written at login-form.tsx:72-77) has the user's id and the given name, level `usuario`, never `admin`, and is active |
| `SignUpForm.DisplayName` | components/sign-up-form.tsx:60 | the name sent is the typed name if non-empty; otherwise the part of the email before its first `@` (the whole email if there is none) |
| `SignUpForm.DisplayNameOfAddress` | components/sign-up-form.tsx:97 | with no typed name, `local@domain` gives `local`, and an email without `@` is used whole |
| `SignUpForm.Translate` | components/sign-up-form.tsx:112-128 | the message shown is one of the four fixed Portuguese texts or the caught error's own message |
| `SignUpForm.RegisteredReported` | components/sign-up-form.tsx:117-118 | any message mentioning 'User already registered' is shown as "Este email já está cadastrado" |
| `SignUpForm.ShortPasswordReported` | components/sign-up-form.tsx:119-120 | 'Password should be at least' is shown as the password-length message when the first pattern is absent |
| `SignUpForm.InvalidEmailReported` | components/sign-up-form.tsx:121-122 | 'Invalid email' is shown as "Email inválido" when the earlier patterns are absent |
| `SignUpForm.OtherErrorsShownRaw` | components/sign-up-form.tsx:123-128 | any other error shows its own message; a non-Error shows the generic message |
| `SignUpForm.Submit` | components/sign-up-form.tsx:51-111 | the `try` block issues one to three requests: the sign-up first, and after it only a select and an insert, both on `perfis_usuario` |
| `SignUpForm.SignUpRequestFirst` | components/sign-up-form.tsx:55-64 | the first request is the sign-up with the form's email and password and the display name |
| `SignUpForm.ThrowsOrRedirects` | components/sign-up-form.tsx:51-111 | the attempt either throws or reaches the redirect to the login page, never both |
| `SignUpForm.SignUpFailureStops` | components/sign-up-form.tsx:66-73 | a sign-up error, or a reply without a user, throws that error and issues no further request |
| `SignUpForm.FallbackInsertIff` | components/sign-up-form.tsx:83-100 | a profile is inserted exactly when the account was created and the lookup returned neither row nor error; the row is an active `usuario` profile in `perfis_usuario` named with the display name |
| `SignUpForm.InsertFailureStillRedirects` | components/sign-up-form.tsx:102-110 | a failed fallback insert still ends in the redirect, with nothing thrown |
| `SignUpForm.SignUpForm.constructor` | components/sign-up-form.tsx:24-29 | all inputs empty, no error, not loading, no redirect, no request issued |
| `SignUpForm.SignUpForm.HandleSignUp` | components/sign-up-form.tsx:32-131 | a failed check sets its message and issues no request; otherwise the requests, the translated error and the redirect are those of `Submit`. The error is cleared on success, and loading is off on every path |
| `LoginForm.ProfileName` | components/login-form.tsx:74 | the name of a created profile is never empty: 'Usuário' when there is no email or the email is empty or starts with `@`; otherwise the part of the email before its first `@` (the whole email when it has none) |
| `LoginForm.ProfileNameOfAddress` | components/login-form.tsx:74 | `local@domain` gives `local` when `local` is non-empty, and 'Usuário' when it is empty |
| `LoginForm.Translate` | components/login-form.tsx:121-135 | the message shown is one of the three fixed Portuguese texts or the caught error's own message |
| `LoginForm.InvalidCredentialsReported` | components/login-form.tsx:126-127 | any message mentioning 'Invalid login credentials' is shown as "Email ou senha incorretos" |
| `LoginForm.UnconfirmedReported` | components/login-form.tsx:128-129 | 'Email not confirmed' is shown as the confirmation message when the first pattern is absent |
| `LoginForm.OtherErrorsShownRaw` | components/login-form.tsx:130-135 | any other error shows its own message; a non-Error shows the generic message |
| `LoginForm.SignOutThenThrow` | components/login-form.tsx:90-107 | the sign-out is appended as the last request, and the attempt throws, with no redirect |
| `LoginForm.ProfileStep` | components/login-form.tsx:56-119 | after sign-in, the profile lookup on `perfil_usuario` comes first, at most three requests are issued, sign-out happens exactly when it is the last request, and any redirect goes to `/` or `/dashboard` |
| `LoginForm.Submit` | components/login-form.tsx:36-120 | the `try` block issues one to four requests, sign-in with the typed email and password first; sign-out happens exactly when it is the last request, and any redirect goes to `/` or `/dashboard` |
| `LoginForm.ThrowsOrRedirects` | components/login-form.tsx:36-120 | the attempt either throws or redirects, never both, and signs out only on a path that throws |
| `LoginForm.SignInFailureStops` | components/login-form.tsx:45-52 | an auth error, or a reply without a user, throws and issues no lookup, no redirect and no sign-out |
| `LoginForm.MissingProfileCreated` | components/login-form.tsx:58-79 | a lookup with no row, even one that reported an error, leads to inserting an active `usuario` profile in `perfil_usuario` named from the user's email |
| `LoginForm.ProfileCreationOutcome` | components/login-form.tsx:81-100 | a failed insert signs out and throws "Erro ao criar perfil: " followed by the message, with no redirect; a successful insert redirects to `/` |
| `LoginForm.InactiveMessageShown` | components/login-form.tsx:107 | the inactive-account message matches neither translation pattern, so it is shown unchanged |
| `LoginForm.InactiveSignsOut` | components/login-form.tsx:104-108 | an inactive profile signs out and throws the inactive-account error, which is shown unchanged, with no redirect |
| `LoginForm.ActiveRedirectedByRole` | components/login-form.tsx:113-119 | an active admin goes to `/dashboard`, any other active user to `/`, with no insert and no sign-out |
| `LoginForm.CoordinatorOnlyForActiveAdmin` | components/login-form.tsx:56-119 | the redirect to `/dashboard` happens exactly for a signed-in user whose profile was found active with level `admin` |
| `LoginForm.LoginForm.constructor` | components/login-form.tsx:24-28 | inputs empty, no error, not loading, no redirect, not signed out, no request issued |
| `LoginForm.LoginForm.HandleLogin` | components/login-form.tsx:30-138 | the requests, the translated error, the redirect and the sign-out are those of `Submit`. The error is cleared when nothing is thrown, and loading is off on every path |
| `LoginForm.LoginForm.CheckProfile` | components/login-form.tsx:56-119 | the profile part of the handler issues the requests and throws the value given by `ProfileStep` |

## Left out

- The hosted backend, the auth service and the router are not modelled. Their replies are parameters, and the requests and redirects are recorded as fields.
- React state updates are asynchronous and batched in the source. The model applies `setError` and `setIsLoading` as immediate assignments. Only the final state is specified, not the intermediate `isLoading = true`.
- The one-second wait for the database trigger, all `console` logging and the async scheduling itself are not modelled.
- The sign-up request's `emailRedirectTo` option depends on `window.location.origin`. It is not recorded in `Backend.Call.SignUp`.
- The cookie `options` (path, lifetime and so on) are dropped. Cookies are a name-to-value map. The forwarding of `request.headers` into each fresh response is not modelled.
- `Middleware.Decide` takes the profile's level as an input. The middleware's two remote lookups, and the fact that they are made only for signed-in users on guarded paths, are not modelled.
- The model does not combine the decision and the adapter into one response. On a pass-through the source returns the adapter's current `response`. A redirect is a fresh response without the adapter's cookies.
- Redirect targets are modelled as paths. The absolute URL the source builds from `request.url` is not modelled.
- `Middleware.Matches` models the matcher as a JavaScript regular expression anchored at both ends of the pathname. The framework's own handling of matchers (case sensitivity, the `_next/data` prefix, trailing slashes) is not modelled.
- SignUpForm.PasswordProblem: counts characters as Unicode code points. JavaScript's `length` counts UTF-16 code units, so a password with characters outside the Basic Multilingual Plane can be longer in the source than in the model.
- `ativo` and `nivel_acesso` are modelled as a boolean and a string. The schema of the profile tables is not part of this model. A null `nivel_acesso` compares unequal to `'admin'`, like any other non-admin level. A null `ativo` would count as inactive in the source.
- The error `details`, `hint` and `code` of a failed profile creation are only logged. The model keeps just the message.
- The submission form, the dashboards, the detail page, the data queries and the presentational components are not part of this model.
